/**
 * `handleTasksTool(method, args)`: the MCP tool over the `tasks`, `comments` and
 * `time_entries` tables. `list` is a read; `create`, `update`, `comment`, `start_timer` and
 * `stop_timer` insert or update rows. The keys of the tables a task row points into
 * (projects, columns, agents) are a parameter, and the clock `now` is in milliseconds.
 */
module McpTasksTool {
  import opened Wrappers
  import opened JsText
  import opened Sorting
  import opened McpExecutor
  import MemorySchema

  /** The `priority` enum. */
  datatype Priority = NoPriority | Low | Medium | High | Urgent

  function PriorityLabel(p: Priority): string {
    match p
    case NoPriority => "none"
    case Low => "low"
    case Medium => "medium"
    case High => "high"
    case Urgent => "urgent"
  }

  /** How the store reads a `priority` value; anything else is rejected. */
  function ParsePriority(s: string): (r: Option<Priority>)
    ensures r.Some? ==> PriorityLabel(r.value) == s
  {
    if s == "none" then Some(NoPriority)
    else if s == "low" then Some(Low)
    else if s == "medium" then Some(Medium)
    else if s == "high" then Some(High)
    else if s == "urgent" then Some(Urgent)
    else None
  }

  lemma ParsePriorityLabel(p: Priority)
    ensures ParsePriority(PriorityLabel(p)) == Some(p)
  {
  }

  /** The `time_entry_type` enum. */
  datatype EntryType = Auto | Manual

  /** A `tasks` row; `status` and `priority` have defaults but are nullable columns. */
  datatype Task = Task(
    id: int, projectId: int, columnId: int, title: string, description: Option<string>,
    status: Option<string>, priority: Option<Priority>, assigneeAgentId: Option<string>, creator: MemorySchema.Creator,
    estimatedCost: Option<real>, actualCost: Option<real>, confidenceScore: Option<real>,
    createdAt: int, updatedAt: int)

  datatype Comment = Comment(
    id: int, taskId: int, authorType: MemorySchema.Creator, authorAgentId: Option<string>,
    content: string, createdAt: int)

  datatype TimeEntry = TimeEntry(
    id: int, taskId: int, agentId: Option<string>, startedAt: int, endedAt: Option<int>,
    durationSeconds: Option<int>, entryType: EntryType)

  /** The keys of the projects, columns and agents tables, which task rows reference. */
  datatype Refs = Refs(projectIds: set<int>, columnIds: set<int>, agentIds: set<string>)

  /**
   * A key of `args` as the request's JSON gives it: absent (`undefined`), `null`, or a value.
   * Truthiness, `??` and an insert read the first two alike; an update does not.
   */
  datatype Field<T> = Absent | Null | Given(value: T) {
    /** The key as `??` and truthiness read it, `undefined` and `null` both being nothing. */
    function Opt(): (r: Option<T>)
      ensures r.Some? <==> Given?
      ensures r.Some? ==> r.value == value
    {
      if Given? then Some(value) else None
    }
  }

  /**
   * The keys of `args` the methods read. An update writes every key but `taskId` that names a
   * column of the table; of those, `creator` and `createdAt` are read by nothing else.
   */
  datatype Args = Args(
    taskId: Field<int>, projectId: Field<int>, columnId: Field<int>, title: Field<string>,
    description: Field<string>, status: Field<string>, priority: Field<string>,
    assigneeAgentId: Field<string>, estimatedCost: Field<real>, actualCost: Field<real>,
    confidenceScore: Field<real>, creator: Field<string>, createdAt: Field<int>,
    limit: Field<int>, content: Field<string>, authorAgentId: Field<string>, agentId: Field<string>)

  datatype Value = TaskList(tasks: seq<Task>) | OneTask(task: Task) | OneComment(comment: Comment) | OneEntry(entry: TimeEntry)

  /** JavaScript truthiness of an optional number and an optional string. */
  predicate TruthyInt(o: Option<int>) {
    o.Some? && o.value != 0
  }

  predicate TruthyString(o: Option<string>) {
    o.Some? && o.value != ""
  }

  // ------------------------------------------------------------------ list

  /** The three filters `list` applies, each only when its argument is truthy. */
  predicate ListMatches(t: Task, args: Args) {
    (TruthyInt(args.projectId.Opt()) ==> t.projectId == args.projectId.value)
    && (TruthyString(args.status.Opt()) ==> t.status == Some(args.status.value))
    && (TruthyString(args.assigneeAgentId.Opt()) ==> t.assigneeAgentId == Some(args.assigneeAgentId.value))
  }

  /** `(args.limit as number) || 50`. */
  function ListLimit(limit: Option<int>): (n: int)
    ensures n == 50 || (limit.Some? && n == limit.value)
  {
    if limit.Some? && limit.value != 0 then limit.value else 50
  }

  /** The rows that pass the filters, in table order. */
  function Matching(tasks: seq<Task>, args: Args): (r: seq<Task>)
    ensures |r| <= |tasks|
    ensures forall t :: t in r <==> t in tasks && ListMatches(t, args)
  {
    if tasks == [] then []
    else
      var init := tasks[..|tasks| - 1];
      var last := tasks[|tasks| - 1];
      assert tasks == init + [last];
      var rest := Matching(init, args);
      if ListMatches(last, args) then rest + [last] else rest
  }

  function UpdatedAtKey(t: Task): real {
    t.updatedAt as real
  }

  function Min(a: int, b: int): int {
    if a <= b then a else b
  }

  /**
   * The query: the filtered rows ordered by `updatedAt` descending, at most `limit` of them
   * (the store applies ORDER BY before LIMIT whatever the builder's call order); a negative
   * LIMIT is an error of the store.
   */
  function List(tasks: seq<Task>, args: Args): Outcome<seq<Task>> {
    var n := ListLimit(args.limit.Opt());
    if n < 0 then Thrown
    else
      var s := SortDesc(Matching(tasks, args), UpdatedAtKey);
      Returned(s[..Min(n, |s|)])
  }

  /**
   * `list` returns up to `limit` (default 50) rows, each a task that passes the filters,
   * newest update first, and no filtered task that is left out was updated later than one
   * that is returned.
   */
  lemma ListContract(tasks: seq<Task>, args: Args)
    ensures ListLimit(args.limit.Opt()) >= 0 ==> List(tasks, args).Returned?
    ensures List(tasks, args).Returned? ==>
      var r := List(tasks, args).value;
      var m := Matching(tasks, args);
      |r| == Min(ListLimit(args.limit.Opt()), |m|)
      && (forall i :: 0 <= i < |r| ==> r[i] in tasks && ListMatches(r[i], args))
      && SortedDesc(r, UpdatedAtKey)
      && forall t :: t in m && t !in r ==> forall i :: 0 <= i < |r| ==> t.updatedAt <= r[i].updatedAt
  {
    var n := ListLimit(args.limit.Opt());
    if n >= 0 {
      var m := Matching(tasks, args);
      var s := SortDesc(m, UpdatedAtKey);
      var r := s[..Min(n, |s|)];
      assert List(tasks, args) == Returned(r);
      forall i | 0 <= i < |r| ensures r[i] in tasks && ListMatches(r[i], args) {
        assert r[i] == s[i];
        SortDescMembers(m, UpdatedAtKey, s[i]);
      }
      forall i, j | 0 <= i < j < |r| ensures UpdatedAtKey(r[i]) >= UpdatedAtKey(r[j]) {
        assert r[i] == s[i] && r[j] == s[j];
      }
      forall t | t in m && t !in r ensures forall i :: 0 <= i < |r| ==> t.updatedAt <= r[i].updatedAt {
        SortDescMembers(m, UpdatedAtKey, t);
        var k :| 0 <= k < |s| && s[k] == t;
        forall i | 0 <= i < |r| ensures t.updatedAt <= r[i].updatedAt {
          assert r[i] == s[i];
          assert UpdatedAtKey(s[i]) >= UpdatedAtKey(s[k]);
        }
      }
    }
  }

  /** The advertised priority filter is never read: any priority gives the same answer. */
  lemma ListIgnoresPriority(tasks: seq<Task>, args: Args, p: Field<string>)
    ensures List(tasks, args.(priority := p)) == List(tasks, args)
  {
    assert forall t :: ListMatches(t, args.(priority := p)) == ListMatches(t, args);
    MatchingSame(tasks, args, args.(priority := p));
  }

  lemma {:induction false} MatchingSame(tasks: seq<Task>, a: Args, b: Args)
    requires forall t :: ListMatches(t, a) == ListMatches(t, b)
    ensures Matching(tasks, a) == Matching(tasks, b)
  {
    if tasks != [] {
      MatchingSame(tasks[..|tasks| - 1], a, b);
    }
  }

  // ------------------------------------------------------------------ create

  /**
   * The insert succeeds when the NOT NULL columns are given, the project and column exist,
   * the title fits its 500 characters, the priority (default none) is one of the enum and the
   * assignee, when given, is an agent.
   */
  predicate CreateAccepted(args: Args, refs: Refs) {
    args.projectId.Given? && args.projectId.value in refs.projectIds
    && args.columnId.Given? && args.columnId.value in refs.columnIds
    && args.title.Given? && |args.title.value| <= 500
    && ParsePriority(args.priority.Opt().GetOr("none")).Some?
    && (args.assigneeAgentId.Given? ==> args.assigneeAgentId.value in refs.agentIds)
  }

  /** The inserted row, with the column defaults for the rest. */
  function NewTask(args: Args, refs: Refs, id: int, now: int): Task
    requires CreateAccepted(args, refs)
  {
    Task(id, args.projectId.value, args.columnId.value, args.title.value, args.description.Opt(),
      Some("backlog"), ParsePriority(args.priority.Opt().GetOr("none")), args.assigneeAgentId.Opt(), MemorySchema.ByAgent,
      args.estimatedCost.Opt(), None, None, now, now)
  }

  /**
   * A created task is the agent's, in backlog, with priority none unless one is given, and
   * carries the given fields; no cost or score is recorded yet.
   */
  lemma NewTaskDefaults(args: Args, refs: Refs, id: int, now: int)
    requires CreateAccepted(args, refs)
    ensures var t := NewTask(args, refs, id, now);
      t.creator == MemorySchema.ByAgent && t.status == Some("backlog")
      && (!args.priority.Given? ==> t.priority == Some(NoPriority))
      && (args.priority.Given? ==> t.priority.Some? && PriorityLabel(t.priority.value) == args.priority.value)
      && t.projectId == args.projectId.value && t.columnId == args.columnId.value && t.title == args.title.value
      && (args.description.Given? ==> t.description == Some(args.description.value))
      && (!args.description.Given? ==> t.description.None?)
      && (args.assigneeAgentId.Given? ==> t.assigneeAgentId == Some(args.assigneeAgentId.value))
      && (!args.assigneeAgentId.Given? ==> t.assigneeAgentId.None?)
      && t.estimatedCost == args.estimatedCost.Opt() && t.actualCost.None? && t.confidenceScore.None?
      && t.createdAt == now && t.updatedAt == now
  {
  }

  // ------------------------------------------------------------------ update

  function TaskIndex(tasks: seq<Task>, id: int): (r: Option<nat>)
    ensures r.Some? ==> r.value < |tasks| && tasks[r.value].id == id
    ensures r.None? ==> forall i :: 0 <= i < |tasks| ==> tasks[i].id != id
    decreases |tasks|
  {
    if tasks == [] then None
    else if tasks[0].id == id then Some(0)
    else
      var r := TaskIndex(tasks[1..], id);
      assert forall i :: 0 < i < |tasks| ==> tasks[i] == tasks[1..][i - 1];
      if r.Some? then Some(r.value + 1) else None
  }

  /** Given enum values must be members of their enums, checked before any row is looked at. */
  predicate EnumArgsValid(args: Args) {
    (args.priority.Given? ==> ParsePriority(args.priority.value).Some?)
    && (args.creator.Given? ==> MemorySchema.ParseCreator(args.creator.value).Some?)
  }

  /**
   * The row's new values are accepted: no NOT NULL column is set to `null`, references exist
   * and strings fit their columns.
   */
  predicate UpdateAccepted(args: Args, refs: Refs) {
    !args.projectId.Null? && !args.columnId.Null? && !args.title.Null? && !args.creator.Null? && !args.createdAt.Null?
    && (args.projectId.Given? ==> args.projectId.value in refs.projectIds)
    && (args.columnId.Given? ==> args.columnId.value in refs.columnIds)
    && (args.title.Given? ==> |args.title.value| <= 500)
    && (args.status.Given? ==> |args.status.value| <= 30)
    && (args.assigneeAgentId.Given? ==> args.assigneeAgentId.value in refs.agentIds)
  }

  /** A NOT NULL column: a given value replaces it (a `null` is refused before this). */
  function Keep<T>(f: Field<T>, current: T): T {
    if f.Given? then f.value else current
  }

  /** A nullable column: an absent key keeps it, `null` writes NULL, a value is written. */
  function Write<T>(f: Field<T>, current: Option<T>): Option<T> {
    match f
    case Absent => current
    case Null => None
    case Given(v) => Some(v)
  }

  /** The `priority` column, nullable, with a given label read through the enum. */
  function WritePriority(f: Field<string>, current: Option<Priority>): Option<Priority>
    requires f.Given? ==> ParsePriority(f.value).Some?
  {
    match f
    case Absent => current
    case Null => None
    case Given(name) => ParsePriority(name)
  }

  /**
   * `set({ ...updates, updatedAt })`: every key of `args` but `taskId` that names a column is
   * written, `updatedAt` last so that the clock wins; the other columns are kept.
   */
  function Updated(t: Task, args: Args, now: int): Task
    requires EnumArgsValid(args)
  {
    Task(t.id, Keep(args.projectId, t.projectId), Keep(args.columnId, t.columnId), Keep(args.title, t.title),
      Write(args.description, t.description), Write(args.status, t.status), WritePriority(args.priority, t.priority),
      Write(args.assigneeAgentId, t.assigneeAgentId),
      if args.creator.Given? then MemorySchema.ParseCreator(args.creator.value).value else t.creator,
      Write(args.estimatedCost, t.estimatedCost), Write(args.actualCost, t.actualCost),
      Write(args.confidenceScore, t.confidenceScore), Keep(args.createdAt, t.createdAt), now)
  }

  /** What a write did to a nullable column: kept when absent, NULL for `null`, else the value. */
  predicate WroteNullable<T(==)>(f: Field<T>, before: Option<T>, after: Option<T>) {
    (f.Absent? ==> after == before) && (f.Null? ==> after.None?) && (f.Given? ==> after == Some(f.value))
  }

  /** What a write did to a NOT NULL column: kept when absent, else the value. */
  predicate WroteRequired<T(==)>(f: Field<T>, before: T, after: T) {
    (!f.Given? ==> after == before) && (f.Given? ==> after == f.value)
  }

  /**
   * An accepted update sets exactly the column keys given (other than `taskId`), an explicit
   * `null` clearing a nullable column, and moves `updatedAt`; the row keeps its id.
   */
  lemma UpdatedFields(t: Task, args: Args, refs: Refs, now: int)
    requires EnumArgsValid(args) && UpdateAccepted(args, refs)
    ensures var u := Updated(t, args, now);
      u.id == t.id && u.updatedAt == now
      && WroteRequired(args.projectId, t.projectId, u.projectId) && WroteRequired(args.columnId, t.columnId, u.columnId)
      && WroteRequired(args.title, t.title, u.title) && WroteRequired(args.createdAt, t.createdAt, u.createdAt)
      && (args.creator.Given? ==> MemorySchema.CreatorLabel(u.creator) == args.creator.value)
      && (!args.creator.Given? ==> u.creator == t.creator)
      && WroteNullable(args.description, t.description, u.description)
      && WroteNullable(args.status, t.status, u.status)
      && (args.priority.Given? ==> u.priority.Some? && PriorityLabel(u.priority.value) == args.priority.value)
      && (args.priority.Absent? ==> u.priority == t.priority) && (args.priority.Null? ==> u.priority.None?)
      && WroteNullable(args.assigneeAgentId, t.assigneeAgentId, u.assigneeAgentId)
      && WroteNullable(args.estimatedCost, t.estimatedCost, u.estimatedCost)
      && WroteNullable(args.actualCost, t.actualCost, u.actualCost)
      && WroteNullable(args.confidenceScore, t.confidenceScore, u.confidenceScore)
  {
  }

  /** `{"taskId": 7, "assigneeAgentId": null}` un-assigns the task. */
  lemma NullUnassigns(t: Task, args: Args, now: int)
    requires EnumArgsValid(args) && args.assigneeAgentId.Null?
    ensures Updated(t, args, now).assigneeAgentId.None?
  {
  }

  /** An update that gives nothing but the id still moves `updatedAt`, and only that. */
  lemma UpdateNothing(t: Task, args: Args, now: int)
    requires args.projectId.Absent? && args.columnId.Absent? && args.title.Absent? && args.description.Absent?
    requires args.status.Absent? && args.priority.Absent? && args.assigneeAgentId.Absent?
    requires args.estimatedCost.Absent? && args.actualCost.Absent? && args.confidenceScore.Absent?
    requires args.creator.Absent? && args.createdAt.Absent?
    ensures Updated(t, args, now) == t.(updatedAt := now)
  {
  }

  /** The update reaches a row and the store takes it: valid enums, an existing id, accepted values. */
  predicate UpdateApplies(args: Args, refs: Refs, tasks: seq<Task>) {
    EnumArgsValid(args) && args.taskId.Given? && TaskIndex(tasks, args.taskId.value).Some? && UpdateAccepted(args, refs)
  }

  /** `Task ${taskId} not found`, where an absent id prints as `undefined` and a null one as `null`. */
  function NotFound(taskId: Field<int>): string {
    "Task " + (match taskId case Given(n) => IntToString(n) case Null => "null" case Absent => "undefined") + " not found"
  }

  // ------------------------------------------------------------------ comment and timers

  function AuthorType(authorAgentId: Option<string>): (r: MemorySchema.Creator)
    ensures r == MemorySchema.ByAgent <==> TruthyString(authorAgentId)
    ensures r != MemorySchema.ByAgent ==> r == MemorySchema.ByUser
  {
    if TruthyString(authorAgentId) then MemorySchema.ByAgent else MemorySchema.ByUser
  }

  /** The task must exist (the foreign key), and `content` is NOT NULL. */
  predicate CommentAccepted(args: Args, tasks: seq<Task>) {
    args.taskId.Given? && TaskIndex(tasks, args.taskId.value).Some? && args.content.Given?
    && (args.authorAgentId.Given? ==> |args.authorAgentId.value| <= 50)
  }

  function NewComment(args: Args, tasks: seq<Task>, id: int, now: int): Comment
    requires CommentAccepted(args, tasks)
  {
    Comment(id, args.taskId.value, AuthorType(args.authorAgentId.Opt()), args.authorAgentId.Opt(), args.content.value, now)
  }

  /**
   * An empty author id is falsy: the comment is the user's, yet the empty id is stored, since
   * `?? null` keeps it.
   */
  lemma EmptyAuthorIsUser(args: Args, tasks: seq<Task>, id: int, now: int)
    requires CommentAccepted(args, tasks) && args.authorAgentId == Given("")
    ensures NewComment(args, tasks, id, now).authorType == MemorySchema.ByUser
    ensures NewComment(args, tasks, id, now).authorAgentId == Some("")
  {
  }

  function EntryTypeOf(agentId: Option<string>): (r: EntryType)
    ensures r == Auto <==> TruthyString(agentId)
  {
    if TruthyString(agentId) then Auto else Manual
  }

  predicate TimerAccepted(args: Args, tasks: seq<Task>) {
    args.taskId.Given? && TaskIndex(tasks, args.taskId.value).Some?
    && (args.agentId.Given? ==> |args.agentId.value| <= 50)
  }

  /** A started timer: running (no end, no duration), automatic exactly when an agent is given. */
  function NewEntry(args: Args, tasks: seq<Task>, id: int, now: int): (e: TimeEntry)
    requires TimerAccepted(args, tasks)
    ensures e.endedAt.None? && e.durationSeconds.None? && e.startedAt == now
    ensures e.entryType == Auto <==> TruthyString(args.agentId.Opt())
  {
    TimeEntry(id, args.taskId.value, args.agentId.Opt(), now, None, None, EntryTypeOf(args.agentId.Opt()))
  }

  /** The entries `stop_timer` selects: the task's, and the agent's when an agent is given. */
  predicate TimerMatches(e: TimeEntry, taskId: Option<int>, agentId: Option<string>) {
    taskId.Some? && e.taskId == taskId.value && (TruthyString(agentId) ==> e.agentId == agentId)
  }

  /**
   * ORDER BY startedAt DESC LIMIT 1: a selected entry with the latest start (the earliest in
   * table order among equal starts), or none when no entry is selected.
   */
  function Latest(entries: seq<TimeEntry>, taskId: Option<int>, agentId: Option<string>): (r: Option<nat>)
    ensures r.Some? ==> (r.value < |entries| && TimerMatches(entries[r.value], taskId, agentId)
      && forall j :: 0 <= j < |entries| && TimerMatches(entries[j], taskId, agentId) ==>
           entries[j].startedAt <= entries[r.value].startedAt)
    ensures r.None? ==> forall j :: 0 <= j < |entries| ==> !TimerMatches(entries[j], taskId, agentId)
    decreases |entries|
  {
    if entries == [] then None
    else
      var init := entries[..|entries| - 1];
      var last := entries[|entries| - 1];
      var r := Latest(init, taskId, agentId);
      assert forall j :: 0 <= j < |init| ==> entries[j] == init[j];
      if TimerMatches(last, taskId, agentId) && (r.None? || last.startedAt > init[r.value].startedAt) then
        Some(|init|)
      else r
  }

  /** Entries whose selection and start are unchanged have the same latest entry. */
  lemma {:induction false} LatestSame(a: seq<TimeEntry>, b: seq<TimeEntry>, taskId: Option<int>, agentId: Option<string>)
    requires |a| == |b|
    requires forall j :: 0 <= j < |a| ==> (TimerMatches(a[j], taskId, agentId) <==> TimerMatches(b[j], taskId, agentId))
    requires forall j :: 0 <= j < |a| ==> a[j].startedAt == b[j].startedAt
    ensures Latest(a, taskId, agentId) == Latest(b, taskId, agentId)
    decreases |a|
  {
    if a != [] {
      var ia := a[..|a| - 1];
      var ib := b[..|b| - 1];
      assert forall j :: 0 <= j < |ia| ==> ia[j] == a[j] && ib[j] == b[j];
      LatestSame(ia, ib, taskId, agentId);
    }
  }

  const NoRunningTimer: string := "No running timer found for this task"

  /** The stopped entry: ended now, with the whole seconds elapsed (`Math.floor`). */
  function Stopped(e: TimeEntry, now: int): (s: TimeEntry)
    ensures s.endedAt == Some(now) && s.durationSeconds.Some?
    ensures s.durationSeconds.value * 1000 <= now - e.startedAt < s.durationSeconds.value * 1000 + 1000
  {
    e.(endedAt := Some(now), durationSeconds := Some((now - e.startedAt) / 1000))
  }

  // ------------------------------------------------------------------ the tables

  ghost predicate IdsBelow(ids: seq<int>, next: int) {
    (forall i :: 0 <= i < |ids| ==> ids[i] < next) && forall i, j :: 0 <= i < j < |ids| ==> ids[i] != ids[j]
  }

  /** The next serial id is new, and the counter then moves past it. */
  lemma IdsBelowSnoc(ids: seq<int>, next: int)
    requires IdsBelow(ids, next)
    ensures IdsBelow(ids + [next], next + 1)
  {
    var n := ids + [next];
    forall i, j | 0 <= i < j < |n| ensures n[i] != n[j] {
      if j == |ids| {
        assert n[i] == ids[i];
      } else {
        assert n[i] == ids[i] && n[j] == ids[j];
      }
    }
  }

  function TaskIds(tasks: seq<Task>): (r: seq<int>)
    ensures |r| == |tasks| && forall i :: 0 <= i < |tasks| ==> r[i] == tasks[i].id
  {
    seq(|tasks|, i requires 0 <= i < |tasks| => tasks[i].id)
  }

  function CommentIds(cs: seq<Comment>): (r: seq<int>)
    ensures |r| == |cs| && forall i :: 0 <= i < |cs| ==> r[i] == cs[i].id
  {
    seq(|cs|, i requires 0 <= i < |cs| => cs[i].id)
  }

  function EntryIds(es: seq<TimeEntry>): (r: seq<int>)
    ensures |r| == |es| && forall i :: 0 <= i < |es| ==> r[i] == es[i].id
  {
    seq(|es|, i requires 0 <= i < |es| => es[i].id)
  }

  /** What `list` returns: the query's rows, or its error. */
  function ListValue(l: Outcome<seq<Task>>): (r: Outcome<Value>)
    ensures l.Returned? <==> r.Returned?
    ensures l.Returned? ==> r.value == TaskList(l.value)
  {
    match l
    case Returned(ts) => Returned(TaskList(ts))
    case Raised(msg) => Raised(msg)
    case Thrown => Thrown
  }

  class TasksDb {
    var tasks: seq<Task>
    var comments: seq<Comment>
    var entries: seq<TimeEntry>
    var nextTaskId: int
    var nextCommentId: int
    var nextEntryId: int

    /** Serial ids below their counters, and comments and entries point at existing tasks. */
    ghost predicate Valid()
      reads this
    {
      IdsBelow(TaskIds(tasks), nextTaskId) && IdsBelow(CommentIds(comments), nextCommentId)
      && IdsBelow(EntryIds(entries), nextEntryId)
      && (forall i :: 0 <= i < |comments| ==> TaskIndex(tasks, comments[i].taskId).Some?)
      && (forall i :: 0 <= i < |entries| ==> TaskIndex(tasks, entries[i].taskId).Some?)
    }

    constructor ()
      ensures Valid() && tasks == [] && comments == [] && entries == []
      ensures nextTaskId == 1 && nextCommentId == 1 && nextEntryId == 1
    {
      tasks, comments, entries := [], [], [];
      nextTaskId, nextCommentId, nextEntryId := 1, 1, 1;
    }

    /** `create`: the new row, or a store error that inserts nothing. */
    method Create(args: Args, refs: Refs, now: int) returns (r: Outcome<Value>)
      requires Valid()
      modifies this
      ensures Valid() && comments == old(comments) && entries == old(entries)
      ensures nextCommentId == old(nextCommentId) && nextEntryId == old(nextEntryId)
      ensures CreateAccepted(args, refs) ==>
        var t := NewTask(args, refs, old(nextTaskId), now);
        r == Returned(OneTask(t)) && tasks == old(tasks) + [t] && nextTaskId == old(nextTaskId) + 1
      ensures !CreateAccepted(args, refs) ==> r == Thrown && tasks == old(tasks) && nextTaskId == old(nextTaskId)
    {
      if !CreateAccepted(args, refs) {
        return Thrown;
      }
      var t := NewTask(args, refs, nextTaskId, now);
      TaskIndexAppend(tasks, t);
      tasks := tasks + [t];
      nextTaskId := nextTaskId + 1;
      r := Returned(OneTask(t));
    }

    /**
     * `update`: a priority or creator outside its enum is rejected first; then the row with the id is
     * updated, or "Task <id> not found" is raised when there is none.
     */
    method Update(args: Args, refs: Refs, now: int) returns (r: Outcome<Value>)
      requires Valid()
      modifies this
      ensures Valid() && comments == old(comments) && entries == old(entries)
      ensures nextTaskId == old(nextTaskId) && nextCommentId == old(nextCommentId) && nextEntryId == old(nextEntryId)
      ensures |tasks| == |old(tasks)|
      ensures !EnumArgsValid(args) ==> r == Thrown && tasks == old(tasks)
      ensures EnumArgsValid(args) && (!args.taskId.Given? || TaskIndex(old(tasks), args.taskId.value).None?) ==>
        r == Raised(NotFound(args.taskId)) && tasks == old(tasks)
      ensures EnumArgsValid(args) && args.taskId.Given? && TaskIndex(old(tasks), args.taskId.value).Some? ==>
        var i := TaskIndex(old(tasks), args.taskId.value).value;
        if UpdateAccepted(args, refs) then
          var u := Updated(old(tasks)[i], args, now);
          r == Returned(OneTask(u)) && tasks == old(tasks)[i := u]
        else r == Thrown && tasks == old(tasks)
    {
      if !EnumArgsValid(args) {
        return Thrown;
      }
      if !args.taskId.Given? {
        return Raised(NotFound(args.taskId));
      }
      var found := TaskIndex(tasks, args.taskId.value);
      if found.None? {
        return Raised(NotFound(args.taskId));
      }
      if !UpdateAccepted(args, refs) {
        return Thrown;
      }
      var i := found.value;
      var u := Updated(tasks[i], args, now);
      TaskIndexUpdate(tasks, i, u);
      tasks := tasks[i := u];
      r := Returned(OneTask(u));
    }

    /** `comment`: the new comment row, or a store error that inserts nothing. */
    method AddComment(args: Args, now: int) returns (r: Outcome<Value>)
      requires Valid()
      modifies this
      ensures Valid() && tasks == old(tasks) && entries == old(entries)
      ensures nextTaskId == old(nextTaskId) && nextEntryId == old(nextEntryId)
      ensures CommentAccepted(args, tasks) ==>
        var c := NewComment(args, tasks, old(nextCommentId), now);
        r == Returned(OneComment(c)) && comments == old(comments) + [c] && nextCommentId == old(nextCommentId) + 1
      ensures !CommentAccepted(args, tasks) ==> r == Thrown && comments == old(comments) && nextCommentId == old(nextCommentId)
    {
      if !CommentAccepted(args, tasks) {
        return Thrown;
      }
      var c := NewComment(args, tasks, nextCommentId, now);
      comments := comments + [c];
      nextCommentId := nextCommentId + 1;
      r := Returned(OneComment(c));
    }

    /** `start_timer`: the new running entry, or a store error that inserts nothing. */
    method StartTimer(args: Args, now: int) returns (r: Outcome<Value>)
      requires Valid()
      modifies this
      ensures Valid() && tasks == old(tasks) && comments == old(comments)
      ensures nextTaskId == old(nextTaskId) && nextCommentId == old(nextCommentId)
      ensures TimerAccepted(args, tasks) ==>
        var e := NewEntry(args, tasks, old(nextEntryId), now);
        r == Returned(OneEntry(e)) && entries == old(entries) + [e] && nextEntryId == old(nextEntryId) + 1
      ensures !TimerAccepted(args, tasks) ==> r == Thrown && entries == old(entries) && nextEntryId == old(nextEntryId)
    {
      if !TimerAccepted(args, tasks) {
        return Thrown;
      }
      var e := NewEntry(args, tasks, nextEntryId, now);
      entries := entries + [e];
      nextEntryId := nextEntryId + 1;
      r := Returned(OneEntry(e));
    }

    /**
     * `stop_timer`: the latest selected entry is stopped; with no selected entry, or when the
     * latest one has already ended, "No running timer found for this task" is raised.
     */
    method StopTimer(args: Args, now: int) returns (r: Outcome<Value>)
      requires Valid()
      modifies this
      ensures Valid() && tasks == old(tasks) && comments == old(comments)
      ensures nextTaskId == old(nextTaskId) && nextCommentId == old(nextCommentId) && nextEntryId == old(nextEntryId)
      ensures var l := Latest(old(entries), args.taskId.Opt(), args.agentId.Opt());
        if l.None? || old(entries)[l.value].endedAt.Some? then r == Raised(NoRunningTimer) && entries == old(entries)
        else
          var s := Stopped(old(entries)[l.value], now);
          r == Returned(OneEntry(s)) && entries == old(entries)[l.value := s]
    {
      var l := Latest(entries, args.taskId.Opt(), args.agentId.Opt());
      if l.None? || entries[l.value].endedAt.Some? {
        return Raised(NoRunningTimer);
      }
      var s := Stopped(entries[l.value], now);
      assert EntryIds(entries[l.value := s]) == EntryIds(entries)[l.value := s.id];
      entries := entries[l.value := s];
      r := Returned(OneEntry(s));
    }

    /** `handleTasksTool(method, args)`. */
    method Handle(m: string, args: Args, refs: Refs, now: int) returns (r: Outcome<Value>)
      requires Valid()
      modifies this
      ensures Valid()
      ensures m == "list" ==> unchanged(this)
      ensures m == "list" ==> r == ListValue(List(old(tasks), args))
      ensures m == "create" ==>
        if CreateAccepted(args, refs) then r.Returned? && tasks == old(tasks) + [NewTask(args, refs, old(nextTaskId), now)]
        else r == Thrown && tasks == old(tasks)
      ensures m == "update" && UpdateApplies(args, refs, old(tasks)) ==>
        var i := TaskIndex(old(tasks), args.taskId.value).value;
        r.Returned? && tasks == old(tasks)[i := Updated(old(tasks)[i], args, now)]
      ensures m == "update" && !UpdateApplies(args, refs, old(tasks)) ==> !r.Returned? && tasks == old(tasks)
      ensures m !in {"list", "create", "update", "comment", "start_timer", "stop_timer"} ==>
        unchanged(this) && r == Raised("Unknown tasks method: " + m)
    {
      if m == "list" {
        r := ListValue(List(tasks, args));
      } else if m == "create" {
        r := Create(args, refs, now);
      } else if m == "update" {
        r := Update(args, refs, now);
      } else if m == "comment" {
        r := AddComment(args, now);
      } else if m == "start_timer" {
        r := StartTimer(args, now);
      } else if m == "stop_timer" {
        r := StopTimer(args, now);
      } else {
        r := Raised("Unknown tasks method: " + m);
      }
    }
  }

  lemma TaskIndexAppend(tasks: seq<Task>, t: Task)
    ensures forall id :: TaskIndex(tasks, id).Some? ==> TaskIndex(tasks + [t], id).Some?
  {
    forall id | TaskIndex(tasks, id).Some? ensures TaskIndex(tasks + [t], id).Some? {
      var i := TaskIndex(tasks, id).value;
      assert (tasks + [t])[i].id == id;
    }
  }

  lemma TaskIndexUpdate(tasks: seq<Task>, i: nat, u: Task)
    requires i < |tasks| && u.id == tasks[i].id
    ensures forall id :: TaskIndex(tasks, id).Some? ==> TaskIndex(tasks[i := u], id).Some?
    ensures TaskIds(tasks[i := u]) == TaskIds(tasks)
  {
    forall id | TaskIndex(tasks, id).Some? ensures TaskIndex(tasks[i := u], id).Some? {
      var k := TaskIndex(tasks, id).value;
      assert tasks[i := u][k].id == id;
    }
  }

  /** A stopped timer cannot be stopped again: the same call then finds no running timer. */
  lemma StopTwiceRaises(entries: seq<TimeEntry>, taskId: Option<int>, agentId: Option<string>, now: int)
    requires Latest(entries, taskId, agentId).Some?
    ensures var l := Latest(entries, taskId, agentId).value;
      var after := entries[l := Stopped(entries[l], now)];
      Latest(after, taskId, agentId) == Some(l) && after[l].endedAt.Some?
  {
    var l := Latest(entries, taskId, agentId).value;
    var after := entries[l := Stopped(entries[l], now)];
    LatestSame(entries, after, taskId, agentId);
  }
}
