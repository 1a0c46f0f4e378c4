/**
 * The insight detectors and `runAllDetectors`. Each detector turns the rows its queries return
 * into insights (stuck agents, a budget warning, recurring errors, blocked dependencies); the
 * run concatenates them, drops those whose "type:title" key an unacknowledged stored insight
 * already holds, and stores the rest unacknowledged. Query results, the clock and the number
 * formatting (`toFixed(2)`, `encodeURIComponent`) are parameters.
 */
module InsightDetector {
  import opened Wrappers
  import opened JsText
  import opened FirstWins
  import opened BudgetSpend

  datatype InsightType = AgentStuck | BudgetWarning | ErrorPattern | DependencyBlocked | Standup

  datatype Severity = Info | Warning | Critical

  function TypeName(t: InsightType): (r: string)
    ensures ':' !in r
  {
    match t
    case AgentStuck => "agent_stuck"
    case BudgetWarning => "budget_warning"
    case ErrorPattern => "error_pattern"
    case DependencyBlocked => "dependency_blocked"
    case Standup => "standup"
  }

  /** A suggested action (`text` is its `label`); `params` lists the JSON object's entries in order. */
  datatype Action = Action(text: string, actionType: string, params: seq<(string, string)>)

  datatype DetectedInsight = DetectedInsight(
    insightType: InsightType, severity: Severity, title: string, description: string,
    suggestedActions: seq<Action>, entityType: Option<string>, entityId: Option<int>)

  /** A row of the insights table, as far as the detectors read and write it. */
  datatype StoredInsight = StoredInsight(
    insightType: InsightType, severity: Severity, title: string, description: string,
    suggestedActions: seq<Action>, entityType: Option<string>, entityId: Option<int>, acknowledged: bool)

  datatype AgentStatus = Idle | Busy | AgentError | Offline

  datatype Agent = Agent(name: string, status: AgentStatus, currentTaskId: Option<int>, lastSeenAt: Option<int>)

  datatype Task = Task(id: int, title: string, status: string, priority: string)

  /** A row of the tasks-join-agents query of the dependency detector. */
  datatype Assignment = Assignment(taskId: int, taskTitle: string, taskStatus: string, agentName: string, agentStatus: AgentStatus)

  datatype Dependency = Dependency(taskId: int, dependsOnTaskId: int)

  /** The per-action count of this week's activity-log rows. */
  datatype ActionCount = ActionCount(action: string, count: nat)

  const EcoModeAction: Action := Action("Activer mode eco", "webhook", [("url", "/api/v1/budget/eco-mode"), ("method", "POST")])

  // ------------------------------------------------------------------ emitting insights

  /** The insights a `for ... if (...) results.push(make(row))` loop emits, in row order. */
  function Emit<T>(rows: seq<T>, keep: T -> bool, make: T -> DetectedInsight): (r: seq<DetectedInsight>)
    ensures |r| <= |rows|
  {
    if rows == [] then []
    else
      var init := Emit(rows[..|rows| - 1], keep, make);
      var last := rows[|rows| - 1];
      if keep(last) then init + [make(last)] else init
  }

  method Collect<T>(rows: seq<T>, keep: T -> bool, make: T -> DetectedInsight) returns (results: seq<DetectedInsight>)
    ensures results == Emit(rows, keep, make)
  {
    results := [];
    var i := 0;
    while i < |rows|
      invariant 0 <= i <= |rows|
      invariant results == Emit(rows[..i], keep, make)
    {
      assert rows[..i + 1][..i] == rows[..i];
      if keep(rows[i]) {
        results := results + [make(rows[i])];
      }
      i := i + 1;
    }
    assert rows[..i] == rows;
  }

  /** An insight is emitted exactly for each kept row. */
  lemma {:induction false} EmitMembers<T>(rows: seq<T>, keep: T -> bool, make: T -> DetectedInsight, x: DetectedInsight)
    ensures x in Emit(rows, keep, make) <==> exists i :: 0 <= i < |rows| && keep(rows[i]) && make(rows[i]) == x
  {
    if rows != [] {
      var init := rows[..|rows| - 1];
      EmitMembers(init, keep, make, x);
      if x in Emit(init, keep, make) {
        var i :| 0 <= i < |init| && keep(init[i]) && make(init[i]) == x;
        assert rows[i] == init[i];
      }
      if exists i :: 0 <= i < |rows| && keep(rows[i]) && make(rows[i]) == x {
        var i :| 0 <= i < |rows| && keep(rows[i]) && make(rows[i]) == x;
        if i < |init| {
          assert rows[i] == init[i];
        }
      }
    }
  }

  // ------------------------------------------------------------------ stuck agents

  const TwoHours: int := 2 * 60 * 60 * 1000

  /** The title of the first task with that id, as `const [task] = ... where id = ...` reads it. */
  function TaskTitle(tasks: seq<Task>, id: int): (r: Option<string>)
    ensures r.Some? <==> exists i :: 0 <= i < |tasks| && tasks[i].id == id
  {
    if tasks == [] then None
    else if tasks[0].id == id then Some(tasks[0].title)
    else
      var r := TaskTitle(tasks[1..], id);
      assert forall i :: 0 < i < |tasks| ==> tasks[i] == tasks[1..][i - 1];
      assert r.Some? ==> exists i :: 0 <= i < |tasks| && tasks[i].id == id by {
        if r.Some? {
          var j :| 0 <= j < |tasks[1..]| && tasks[1..][j].id == id;
          assert tasks[j + 1].id == id;
        }
      }
      r
  }

  /** A truthy current task id: present and not 0. */
  predicate HasTask(a: Agent) {
    a.currentTaskId.Some? && a.currentTaskId.value != 0
  }

  /** Busy, on a task, and last seen (a present date is truthy) more than two hours before `now`. */
  predicate IsStuck(a: Agent, now: int) {
    a.status == Busy && HasTask(a) && a.lastSeenAt.Some? && a.lastSeenAt.value < now - TwoHours
  }

  function StuckInsight(a: Agent, taskTitle: Option<string>): DetectedInsight {
    var id := IntToString(a.currentTaskId.GetOr(0));
    DetectedInsight(AgentStuck, Warning,
      a.name + " bloque depuis 2h+",
      "L'agent " + a.name + " travaille sur \"" + taskTitle.GetOr("tache inconnue") + "\" depuis plus de 2 heures. Intervention possible requise.",
      [Action("Reassigner la tache", "navigate", [("url", "/projects?taskId=" + id)]),
       Action("Passer en eco model", "webhook", [("url", "/api/v1/budget/eco-mode"), ("method", "POST")])],
      None, None)
  }

  /** The busy agents, as the `status = 'busy'` query returns them. */
  function BusyAgents(agents: seq<Agent>): (r: seq<Agent>)
    ensures forall a :: a in r <==> a in agents && a.status == Busy
  {
    if agents == [] then []
    else (if agents[0].status == Busy then [agents[0]] else []) + BusyAgents(agents[1..])
  }

  /** `detectAgentStuck()` at time `now`. */
  method DetectAgentStuck(agents: seq<Agent>, tasks: seq<Task>, now: int) returns (results: seq<DetectedInsight>)
    ensures results == Emit(BusyAgents(agents), (a: Agent) => IsStuck(a, now), (a: Agent) => StuckInsight(a, TaskTitle(tasks, a.currentTaskId.GetOr(0))))
  {
    var busyAgents := BusyAgents(agents);
    results := Collect(busyAgents, (a: Agent) => IsStuck(a, now), (a: Agent) => StuckInsight(a, TaskTitle(tasks, a.currentTaskId.GetOr(0))));
  }

  /** An agent that is busy, has a (non-zero) current task and was last seen more than two hours ago is reported. */
  lemma StuckReported(agents: seq<Agent>, tasks: seq<Task>, now: int, a: Agent)
    requires a in agents
    ensures var r := Emit(BusyAgents(agents), (a: Agent) => IsStuck(a, now), (a: Agent) => StuckInsight(a, TaskTitle(tasks, a.currentTaskId.GetOr(0))));
      a.status == Busy && a.currentTaskId.Some? && a.currentTaskId.value != 0 && a.lastSeenAt.Some? && a.lastSeenAt.value < now - 7200000 ==>
        StuckInsight(a, TaskTitle(tasks, a.currentTaskId.GetOr(0))) in r
  {
    var keep := (a: Agent) => IsStuck(a, now);
    var make := (a: Agent) => StuckInsight(a, TaskTitle(tasks, a.currentTaskId.GetOr(0)));
    var busy := BusyAgents(agents);
    EmitMembers(busy, keep, make, make(a));
    if IsStuck(a, now) {
      assert a in busy;
      var i :| 0 <= i < |busy| && busy[i] == a;
      assert keep(busy[i]) && make(busy[i]) == make(a);
    }
  }

  /** Every reported insight is a warning about an agent that is stuck. */
  lemma StuckOnlyIfStuck(agents: seq<Agent>, tasks: seq<Task>, now: int, x: DetectedInsight)
    requires x in Emit(BusyAgents(agents), (a: Agent) => IsStuck(a, now), (a: Agent) => StuckInsight(a, TaskTitle(tasks, a.currentTaskId.GetOr(0))))
    ensures x.insightType == AgentStuck && x.severity == Warning
    ensures exists a :: a in agents && IsStuck(a, now) && x.title == a.name + " bloque depuis 2h+"
  {
    var keep := (a: Agent) => IsStuck(a, now);
    var make := (a: Agent) => StuckInsight(a, TaskTitle(tasks, a.currentTaskId.GetOr(0)));
    var busy := BusyAgents(agents);
    EmitMembers(busy, keep, make, x);
    var i :| 0 <= i < |busy| && keep(busy[i]) && make(busy[i]) == x;
    assert busy[i] in agents;
  }

  // ------------------------------------------------------------------ budget warning

  /** `(totalSpent / dailyBudget) * 100` in IEEE arithmetic: a zero budget gives ±Infinity or NaN. */
  datatype Percent = Finite(value: real) | PosInfinity | NegInfinity | NotANumber

  function PercentUsed(total: real, dailyBudget: real): Percent {
    if dailyBudget != 0.0 then Finite(total / dailyBudget * 100.0)
    else if total > 0.0 then PosInfinity
    else if total < 0.0 then NegInfinity
    else NotANumber
  }

  /** `percentUsed >= t`: NaN and -Infinity compare false, +Infinity true. */
  predicate AtLeast(p: Percent, t: real) {
    match p
    case Finite(v) => v >= t
    case PosInfinity => true
    case NegInfinity => false
    case NotANumber => false
  }

  /** `Math.round(percentUsed)` as text, for a percentage of at least 85. */
  function RoundText(p: Percent): string
    requires AtLeast(p, 85.0)
  {
    if p.Finite? then NatToString((p.value + 0.5).Floor) else "Infinity"
  }

  /** The baseline: the first of the latest 100 openrouter rows captured before today. */
  function Baseline(history: seq<Snapshot>, todayStart: int): (r: Option<Snapshot>)
    ensures r.Some? ==> r.value in history[..if |history| < 100 then |history| else 100] && r.value.capturedAt < todayStart
  {
    var recent := history[..if |history| < 100 then |history| else 100];
    FirstBefore(recent, todayStart)
  }

  function FirstBefore(rows: seq<Snapshot>, todayStart: int): (r: Option<Snapshot>)
    ensures r.Some? ==> r.value in rows && r.value.capturedAt < todayStart
  {
    if rows == [] then None
    else if rows[0].capturedAt < todayStart then Some(rows[0])
    else FirstBefore(rows[1..], todayStart)
  }

  /** `openrouterDelta`: today's latest openrouter spend minus the baseline's, never negative. */
  function OpenrouterDelta(latest: Option<Snapshot>, baseline: Option<Snapshot>): real {
    if latest.None? then 0.0
    else
      var now := latest.value.spendAmount.GetOr(0.0);
      var base := if baseline.Some? && baseline.value.spendAmount.Some? then baseline.value.spendAmount.value else now;
      MaxReal(0.0, now - base)
  }

  function Lookup(m: map<BudgetSource, Snapshot>, s: BudgetSource): Option<Snapshot> {
    if s in m then Some(m[s]) else None
  }

  /** `totalSpent` of the detector: max(litellm, openrouter delta + openai + anthropic). */
  function DetectorSpent(latest: map<BudgetSource, Snapshot>, baseline: Option<Snapshot>): real {
    MaxReal(SpendOf(latest, Litellm),
      OpenrouterDelta(Lookup(latest, OpenrouterDirect), baseline) + SpendOf(latest, OpenaiDirect) + SpendOf(latest, AnthropicDirect))
  }

  /** Backlog tasks of priority high or urgent. */
  function PendingHighPriority(tasks: seq<Task>): nat {
    if tasks == [] then 0
    else
      var here := if tasks[0].status == "backlog" && (tasks[0].priority == "high" || tasks[0].priority == "urgent") then 1 else 0;
      here + PendingHighPriority(tasks[1..])
  }

  function BudgetInsights(spent: real, dailyBudget: real, pendingHighPri: nat, fixed2: real -> string): (r: seq<DetectedInsight>)
    ensures |r| <= 1
  {
    var p := PercentUsed(spent, dailyBudget);
    if AtLeast(p, 85.0) then
      [DetectedInsight(BudgetWarning, if AtLeast(p, 95.0) then Critical else Warning,
        "Budget a " + RoundText(p) + "%",
        "$" + fixed2(spent) + " depenses sur $" + fixed2(dailyBudget) + ". " + NatToString(pendingHighPri)
          + " tache(s) haute priorite en attente. Envisager le mode eco.",
        [EcoModeAction, Action("Voir le budget", "navigate", [("url", "/budget")])],
        None, None)]
    else []
  }

  /**
   * `detectBudgetWarning()`: `today` are today's rows latest first, `history` the openrouter
   * rows latest first, `todayStart` the start of the day.
   */
  method DetectBudgetWarning(today: seq<Snapshot>, history: seq<Snapshot>, todayStart: int, dailyBudget: real,
                             tasks: seq<Task>, fixed2: real -> string) returns (results: seq<DetectedInsight>)
    ensures results == BudgetInsights(DetectorSpent(LatestBySource(today), Baseline(history, todayStart)),
                                      dailyBudget, PendingHighPriority(tasks), fixed2)
  {
    var order, latestBySource := FillFirstWins(today, SourceOf);
    var openrouterLatest := Lookup(latestBySource, OpenrouterDirect);
    var baseline := Baseline(history, todayStart);
    var delta := OpenrouterDelta(openrouterLatest, baseline);
    var viaLitellm := SpendOf(latestBySource, Litellm);
    var viaDirect := delta + SpendOf(latestBySource, OpenaiDirect) + SpendOf(latestBySource, AnthropicDirect);
    var totalSpent := MaxReal(viaLitellm, viaDirect);
    assert totalSpent == DetectorSpent(LatestBySource(today), Baseline(history, todayStart));
    results := BudgetInsights(totalSpent, dailyBudget, PendingHighPriority(tasks), fixed2);
  }

  /** Below 85% there is no insight; from 85% a warning; from 95% a critical one. */
  lemma BudgetThresholds(spent: real, dailyBudget: real, n: nat, fixed2: real -> string)
    requires dailyBudget > 0.0
    ensures var r := BudgetInsights(spent, dailyBudget, n, fixed2);
      (spent / dailyBudget * 100.0 < 85.0 <==> r == []) &&
      (85.0 <= spent / dailyBudget * 100.0 < 95.0 ==> |r| == 1 && r[0].severity == Warning && r[0].insightType == BudgetWarning) &&
      (spent / dailyBudget * 100.0 >= 95.0 ==> |r| == 1 && r[0].severity == Critical && r[0].insightType == BudgetWarning)
  {
  }

  /** With a zero daily budget any positive spend is a critical warning, and no spend none at all (NaN). */
  lemma ZeroBudget(spent: real, n: nat, fixed2: real -> string)
    ensures spent > 0.0 ==> BudgetInsights(spent, 0.0, n, fixed2)[0].severity == Critical
    ensures spent == 0.0 ==> BudgetInsights(spent, 0.0, n, fixed2) == []
  {
  }

  /**
   * The delta is never negative; it is 0 without a latest openrouter row, and 0 without a
   * baseline (or a baseline without an amount); otherwise it is max(0, latest − baseline).
   */
  lemma DeltaCases(latest: Option<Snapshot>, baseline: Option<Snapshot>)
    ensures OpenrouterDelta(latest, baseline) >= 0.0
    ensures latest.None? ==> OpenrouterDelta(latest, baseline) == 0.0
    ensures baseline.None? || baseline.value.spendAmount.None? ==> OpenrouterDelta(latest, baseline) == 0.0
    ensures latest.Some? && baseline.Some? && baseline.value.spendAmount.Some? ==>
      OpenrouterDelta(latest, baseline) == MaxReal(0.0, latest.value.spendAmount.GetOr(0.0) - baseline.value.spendAmount.value)
  {
  }

  // ------------------------------------------------------------------ error patterns

  /** The WHERE and HAVING of the query: an "error" or "failed" action seen at least 3 times. */
  predicate Recurring(c: ActionCount) {
    (Contains(c.action, "error") || Contains(c.action, "failed")) && c.count >= 3
  }

  function ErrorInsight(c: ActionCount, encode: string -> string): DetectedInsight {
    DetectedInsight(ErrorPattern, Warning,
      "Pattern d'erreur recurrent: " + c.action,
      "L'erreur \"" + c.action + "\" s'est produite " + NatToString(c.count)
        + " fois cette semaine. Verifier la memoire pour une resolution connue.",
      [Action("Chercher dans la memoire", "navigate", [("url", "/memory?q=" + encode(c.action))])],
      None, None)
  }

  /** `detectErrorPattern()` over this week's per-action counts. */
  method DetectErrorPattern(counts: seq<ActionCount>, encode: string -> string) returns (results: seq<DetectedInsight>)
    ensures results == Emit(counts, Recurring, (c: ActionCount) => ErrorInsight(c, encode))
  {
    results := Collect(counts, Recurring, (c: ActionCount) => ErrorInsight(c, encode));
  }

  /** Each recurring action gets a warning titled after it, and nothing else is reported. */
  lemma ErrorReported(counts: seq<ActionCount>, encode: string -> string, x: DetectedInsight)
    ensures x in Emit(counts, Recurring, (c: ActionCount) => ErrorInsight(c, encode)) <==>
      exists i :: 0 <= i < |counts| && Recurring(counts[i]) && x == ErrorInsight(counts[i], encode)
  {
    EmitMembers(counts, Recurring, (c: ActionCount) => ErrorInsight(c, encode), x);
  }

  // ------------------------------------------------------------------ blocked dependencies

  function Dependents(deps: seq<Dependency>, taskId: int): nat {
    if deps == [] then 0
    else (if deps[0].dependsOnTaskId == taskId then 1 else 0) + Dependents(deps[1..], taskId)
  }

  /** The WHERE of the join: the task is not done and its agent is offline or in error. */
  predicate Unserved(a: Assignment) {
    a.taskStatus != "done" && (a.agentStatus == Offline || a.agentStatus == AgentError)
  }

  function StatusName(s: AgentStatus): string {
    match s
    case Idle => "idle"
    case Busy => "busy"
    case AgentError => "error"
    case Offline => "offline"
  }

  function BlockedInsight(a: Assignment, n: nat): DetectedInsight {
    var id := IntToString(a.taskId);
    DetectedInsight(DependencyBlocked, Critical,
      "Tache critique bloquee — " + a.agentName + " offline",
      "\"" + a.taskTitle + "\" est assignee a " + a.agentName + " (" + StatusName(a.agentStatus) + ") et bloque "
        + NatToString(n) + " autre(s) tache(s).",
      [Action("Reassigner", "navigate", [("url", "/projects?taskId=" + id)]),
       Action("Voir les dependances", "navigate", [("url", "/projects?taskId=" + id + "&view=timeline")])],
      Some("task"), Some(a.taskId))
  }

  /** `detectDependencyBlocked()` over the join rows and the dependency table. */
  method DetectDependencyBlocked(rows: seq<Assignment>, deps: seq<Dependency>) returns (results: seq<DetectedInsight>)
    ensures results == Emit(rows, (a: Assignment) => Unserved(a) && Dependents(deps, a.taskId) > 0,
                            (a: Assignment) => BlockedInsight(a, Dependents(deps, a.taskId)))
  {
    results := Collect(rows, (a: Assignment) => Unserved(a) && Dependents(deps, a.taskId) > 0,
                       (a: Assignment) => BlockedInsight(a, Dependents(deps, a.taskId)));
  }

  /**
   * A blocked task is reported, as a critical insight about entity task <id>, exactly when at
   * least one task depends on it.
   */
  lemma BlockedReported(rows: seq<Assignment>, deps: seq<Dependency>, x: DetectedInsight)
    requires x in Emit(rows, (a: Assignment) => Unserved(a) && Dependents(deps, a.taskId) > 0,
                       (a: Assignment) => BlockedInsight(a, Dependents(deps, a.taskId)))
    ensures x.severity == Critical && x.insightType == DependencyBlocked && x.entityType == Some("task")
    ensures exists i :: 0 <= i < |rows| && Unserved(rows[i]) && Dependents(deps, rows[i].taskId) > 0 && x.entityId == Some(rows[i].taskId)
  {
    EmitMembers(rows, (a: Assignment) => Unserved(a) && Dependents(deps, a.taskId) > 0,
                (a: Assignment) => BlockedInsight(a, Dependents(deps, a.taskId)), x);
  }

  /** A task nobody depends on is never reported, whatever its agent's state. */
  lemma NoDependentsNoInsight(rows: seq<Assignment>, deps: seq<Dependency>)
    requires forall k :: 0 <= k < |rows| ==> Dependents(deps, rows[k].taskId) == 0
    ensures Emit(rows, (a: Assignment) => Unserved(a) && Dependents(deps, a.taskId) > 0,
                 (a: Assignment) => BlockedInsight(a, Dependents(deps, a.taskId))) == []
  {
    var keep := (a: Assignment) => Unserved(a) && Dependents(deps, a.taskId) > 0;
    var make := (a: Assignment) => BlockedInsight(a, Dependents(deps, a.taskId));
    var r := Emit(rows, keep, make);
    if r != [] {
      EmitMembers(rows, keep, make, r[0]);
    }
  }

  // ------------------------------------------------------------------ deduplication

  /** The deduplication key `${type}:${title}`. */
  function Key(t: InsightType, title: string): string {
    TypeName(t) + ":" + title
  }

  /** The keys of the unacknowledged stored insights. */
  function OpenKeys(rows: seq<StoredInsight>): (r: set<string>)
    ensures forall k :: 0 <= k < |rows| && !rows[k].acknowledged ==> Key(rows[k].insightType, rows[k].title) in r
  {
    set k | 0 <= k < |rows| && !rows[k].acknowledged :: Key(rows[k].insightType, rows[k].title)
  }

  /** `allDetected.filter((i) => !existingSet.has(key(i)))`. */
  function Fresh(detected: seq<DetectedInsight>, keys: set<string>): (r: seq<DetectedInsight>)
    ensures |r| <= |detected|
  {
    if detected == [] then []
    else
      var init := Fresh(detected[..|detected| - 1], keys);
      var last := detected[|detected| - 1];
      if Key(last.insightType, last.title) in keys then init else init + [last]
  }

  function ToStored(i: DetectedInsight): StoredInsight {
    StoredInsight(i.insightType, i.severity, i.title, i.description, i.suggestedActions, i.entityType, i.entityId, false)
  }

  function StoredAll(s: seq<DetectedInsight>): (r: seq<StoredInsight>)
    ensures |r| == |s|
    ensures forall k :: 0 <= k < |s| ==> r[k] == ToStored(s[k])
  {
    seq(|s|, k requires 0 <= k < |s| => ToStored(s[k]))
  }

  /** The insights table. */
  class InsightStore {
    var rows: seq<StoredInsight>

    constructor (initial: seq<StoredInsight>)
      ensures rows == initial
    {
      rows := initial;
    }

    /** The dedup and insert part of `runAllDetectors`: returns the new insights, each stored. */
    method StoreNew(allDetected: seq<DetectedInsight>) returns (newInsights: seq<DetectedInsight>)
      modifies this
      ensures newInsights == Fresh(allDetected, OpenKeys(old(rows)))
      ensures rows == old(rows) + StoredAll(newInsights)
    {
      var existingSet := OpenKeys(rows);
      newInsights := Fresh(allDetected, existingSet);
      InsertAll(newInsights);
    }

    /** `for (const insight of newInsights) await db.insert(insights).values({..., acknowledged: false})`. */
    method InsertAll(newInsights: seq<DetectedInsight>)
      modifies this
      ensures rows == old(rows) + StoredAll(newInsights)
    {
      var i := 0;
      while i < |newInsights|
        invariant 0 <= i <= |newInsights|
        invariant rows == old(rows) + StoredAll(newInsights[..i])
      {
        StoredAllSnoc(newInsights[..i], newInsights[i]);
        assert newInsights[..i + 1] == newInsights[..i] + [newInsights[i]];
        rows := rows + [ToStored(newInsights[i])];
        i := i + 1;
      }
      assert newInsights[..i] == newInsights;
    }

    /** `runAllDetectors()`: the four detectors' findings, in order, deduplicated and stored. */
    method RunAllDetectors(agents: seq<Agent>, tasks: seq<Task>, now: int,
                           today: seq<Snapshot>, history: seq<Snapshot>, todayStart: int, dailyBudget: real,
                           counts: seq<ActionCount>, assignments: seq<Assignment>, deps: seq<Dependency>,
                           fixed2: real -> string, encode: string -> string) returns (newInsights: seq<DetectedInsight>)
      modifies this
      ensures newInsights == Fresh(AllDetected(agents, tasks, now, today, history, todayStart, dailyBudget, counts, assignments, deps, fixed2, encode), OpenKeys(old(rows)))
      ensures rows == old(rows) + StoredAll(newInsights)
    {
      var stuck := DetectAgentStuck(agents, tasks, now);
      var budget := DetectBudgetWarning(today, history, todayStart, dailyBudget, tasks, fixed2);
      var errors := DetectErrorPattern(counts, encode);
      var blocked := DetectDependencyBlocked(assignments, deps);
      newInsights := StoreNew(stuck + budget + errors + blocked);
    }
  }

  /** `[...stuck, ...budget, ...errors, ...deps]`. */
  function AllDetected(agents: seq<Agent>, tasks: seq<Task>, now: int,
                       today: seq<Snapshot>, history: seq<Snapshot>, todayStart: int, dailyBudget: real,
                       counts: seq<ActionCount>, assignments: seq<Assignment>, deps: seq<Dependency>,
                       fixed2: real -> string, encode: string -> string): seq<DetectedInsight>
  {
    Emit(BusyAgents(agents), (a: Agent) => IsStuck(a, now), (a: Agent) => StuckInsight(a, TaskTitle(tasks, a.currentTaskId.GetOr(0))))
      + BudgetInsights(DetectorSpent(LatestBySource(today), Baseline(history, todayStart)), dailyBudget, PendingHighPriority(tasks), fixed2)
      + Emit(counts, Recurring, (c: ActionCount) => ErrorInsight(c, encode))
      + Emit(assignments, (a: Assignment) => Unserved(a) && Dependents(deps, a.taskId) > 0,
             (a: Assignment) => BlockedInsight(a, Dependents(deps, a.taskId)))
  }

  lemma StoredAllSnoc(s: seq<DetectedInsight>, x: DetectedInsight)
    ensures StoredAll(s + [x]) == StoredAll(s) + [ToStored(x)]
  {
  }

  // ------------------------------------------------------------------ dedup properties

  /** A detected insight is new exactly when no unacknowledged stored insight holds its key. */
  lemma {:induction false} FreshIff(detected: seq<DetectedInsight>, keys: set<string>, x: DetectedInsight)
    ensures x in Fresh(detected, keys) <==> x in detected && Key(x.insightType, x.title) !in keys
  {
    if detected != [] {
      var init := detected[..|detected| - 1];
      assert detected == init + [detected[|detected| - 1]];
      FreshIff(init, keys, x);
    }
  }

  /** The filter keeps the detection order: it distributes over the concatenation of the four detectors. */
  lemma {:induction false} FreshAppend(a: seq<DetectedInsight>, b: seq<DetectedInsight>, keys: set<string>)
    ensures Fresh(a + b, keys) == Fresh(a, keys) + Fresh(b, keys)
    decreases |b|
  {
    if b == [] {
      assert a + b == a;
    } else {
      var init := b[..|b| - 1];
      var last := b[|b| - 1];
      assert (a + b)[..|a + b| - 1] == a + init;
      assert (a + b)[|a + b| - 1] == last;
      FreshAppend(a, init, keys);
    }
  }

  /** Keys of distinct type or distinct title differ: the type name holds no ':'. */
  lemma KeyInjective(t1: InsightType, x1: string, t2: InsightType, x2: string)
    requires Key(t1, x1) == Key(t2, x2)
    ensures t1 == t2 && x1 == x2
  {
    var a, b := TypeName(t1), TypeName(t2);
    assert ":" == [':'];
    assert Key(t1, x1) == a + [':'] + x1;
    assert Key(t2, x2) == b + [':'] + x2;
    SplitAt(a, ':', x1);
    SplitAt(b, ':', x2);
    assert ([a] + Split(x1, ':'))[0] == a && ([b] + Split(x2, ':'))[0] == b;
    assert a == b;
    TypeNameInjective(t1, t2);
    assert x1 == Key(t1, x1)[|a| + 1..];
    assert x2 == Key(t2, x2)[|b| + 1..];
  }

  lemma TypeNameInjective(t1: InsightType, t2: InsightType)
    requires TypeName(t1) == TypeName(t2)
    ensures t1 == t2
  {
    assert TypeName(t1)[0] == TypeName(t2)[0];
    assert TypeName(t1)[1] == TypeName(t2)[1];
  }

  /** Every stored row of a run is unacknowledged, and a second run on the same findings adds nothing. */
  lemma RunTwice(rows: seq<StoredInsight>, detected: seq<DetectedInsight>)
    ensures forall k :: 0 <= k < |StoredAll(Fresh(detected, OpenKeys(rows)))| ==> !StoredAll(Fresh(detected, OpenKeys(rows)))[k].acknowledged
    ensures Fresh(detected, OpenKeys(rows + StoredAll(Fresh(detected, OpenKeys(rows))))) == []
  {
    var added := Fresh(detected, OpenKeys(rows));
    var keys := OpenKeys(rows + StoredAll(added));
    OpenKeysAppend(rows, added);
    var r := Fresh(detected, keys);
    if r != [] {
      var x := r[0];
      FreshIff(detected, keys, x);
      FreshIff(detected, OpenKeys(rows), x);
      assert false;
    }
  }

  function DetectedKeys(s: seq<DetectedInsight>): set<string> {
    set k | 0 <= k < |s| :: Key(s[k].insightType, s[k].title)
  }

  /** Storing new insights adds their keys to the open keys. */
  lemma OpenKeysAppend(rows: seq<StoredInsight>, s: seq<DetectedInsight>)
    ensures OpenKeys(rows + StoredAll(s)) == OpenKeys(rows) + DetectedKeys(s)
  {
    var all := rows + StoredAll(s);
    forall key | key in OpenKeys(all) ensures key in OpenKeys(rows) + DetectedKeys(s) {
      var k :| 0 <= k < |all| && !all[k].acknowledged && Key(all[k].insightType, all[k].title) == key;
      if k < |rows| {
        assert all[k] == rows[k];
      } else {
        assert all[k] == ToStored(s[k - |rows|]);
      }
    }
    forall key | key in OpenKeys(rows) ensures key in OpenKeys(all) {
      var k :| 0 <= k < |rows| && !rows[k].acknowledged && Key(rows[k].insightType, rows[k].title) == key;
      assert all[k] == rows[k];
    }
    forall key | key in DetectedKeys(s) ensures key in OpenKeys(all) {
      var k :| 0 <= k < |s| && Key(s[k].insightType, s[k].title) == key;
      assert all[|rows| + k] == ToStored(s[k]);
    }
  }

  /** Two findings with the same key in one run are both stored: the existing set is read once, before any insert. */
  lemma NoDedupWithinRun(x: DetectedInsight)
    ensures Fresh([x, x], {}) == [x, x]
  {
    assert [x, x][..1] == [x];
    assert [x][..0] == [];
  }
}
