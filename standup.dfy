/**
 * The morning standup briefing: the day's data (shaped from query results), the prompt sent to
 * the completion endpoint, the fallback summary used when the endpoint gives nothing usable,
 * and the suggested actions. The query results, the completion call (`llm`), the date text and
 * JavaScript's number-to-text conversion (`num`) are parameters.
 */
module Standup {
  import opened Wrappers
  import opened JsText
  import opened FirstWins
  import opened BudgetSpend
  import opened InsightDetector

  datatype CompletedTask = CompletedTask(title: string, agent: string, cost: Option<real>)

  datatype FailedTask = FailedTask(title: string, agent: string, reason: Option<string>)

  datatype ActiveInsight = ActiveInsight(insightType: InsightType, title: string, severity: Severity)

  datatype AgentLine = AgentLine(name: string, status: AgentStatus)

  datatype StandupData = StandupData(
    completedYesterday: seq<CompletedTask>, failedTasks: seq<FailedTask>,
    budgetSpent: real, budgetRemaining: real, activeInsights: seq<ActiveInsight>,
    agentStatuses: seq<AgentLine>, inProgressCount: nat, blockedCount: nat)

  /** A done or failed task row: its title, assignee and actual cost. */
  datatype TaskRow = TaskRow(title: string, assigneeAgentId: Option<string>, actualCost: Option<real>)

  // ------------------------------------------------------------------ gathering the data

  /** `Math.round(x * 1000) / 1000`: `Math.round` rounds halves up. */
  function Round3(x: real): (r: real)
    ensures x - 0.0005 < r <= x + 0.0005
  {
    ((x * 1000.0 + 0.5).Floor as real) / 1000.0
  }

  function CompletedOf(rows: seq<TaskRow>): (r: seq<CompletedTask>)
    ensures |r| == |rows|
    ensures forall i :: 0 <= i < |rows| ==> r[i] == CompletedTask(rows[i].title, rows[i].assigneeAgentId.GetOr("unassigned"), rows[i].actualCost)
  {
    seq(|rows|, i requires 0 <= i < |rows| => CompletedTask(rows[i].title, rows[i].assigneeAgentId.GetOr("unassigned"), rows[i].actualCost))
  }

  /** Failed tasks never carry a reason: the reason is always null. */
  function FailedOf(rows: seq<TaskRow>): (r: seq<FailedTask>)
    ensures |r| == |rows|
    ensures forall i :: 0 <= i < |rows| ==> r[i] == FailedTask(rows[i].title, rows[i].assigneeAgentId.GetOr("unassigned"), None)
  {
    seq(|rows|, i requires 0 <= i < |rows| => FailedTask(rows[i].title, rows[i].assigneeAgentId.GetOr("unassigned"), None))
  }

  /** Unacknowledged, non-standup insights, from rows latest first, at most 10. */
  function ActiveOf(rows: seq<StoredInsight>): (r: seq<ActiveInsight>)
    ensures |r| <= 10
    ensures forall i :: 0 <= i < |r| ==> r[i].insightType != Standup
  {
    var open := OpenInsights(rows);
    open[..if |open| < 10 then |open| else 10]
  }

  function OpenInsights(rows: seq<StoredInsight>): (r: seq<ActiveInsight>)
    ensures forall i :: 0 <= i < |r| ==> r[i].insightType != Standup
    ensures forall x :: x in r <==> exists k :: (0 <= k < |rows| && !rows[k].acknowledged && rows[k].insightType != Standup
      && x == ActiveInsight(rows[k].insightType, rows[k].title, rows[k].severity))
  {
    if rows == [] then []
    else
      var h := rows[0];
      var rest := OpenInsights(rows[1..]);
      assert forall k :: 0 < k < |rows| ==> rows[k] == rows[1..][k - 1];
      if !h.acknowledged && h.insightType != Standup then [ActiveInsight(h.insightType, h.title, h.severity)] + rest
      else rest
  }

  function StandupOf(completed: seq<TaskRow>, failed: seq<TaskRow>, spent: real, dailyBudget: real,
                     insightRows: seq<StoredInsight>, agents: seq<Agent>, inProgressCount: nat): StandupData
  {
    StandupData(CompletedOf(completed), FailedOf(failed), Round3(spent), Round3(dailyBudget - spent),
      ActiveOf(insightRows), seq(|agents|, i requires 0 <= i < |agents| => AgentLine(agents[i].name, agents[i].status)),
      inProgressCount, 0)
  }

  /**
   * `gatherStandupData()`: `today` are today's snapshots latest first, `history` the openrouter
   * rows latest first, `agents` the agents by name; the spend is the insight detector's.
   */
  method GatherStandupData(completed: seq<TaskRow>, failed: seq<TaskRow>, today: seq<Snapshot>, history: seq<Snapshot>,
                           todayStart: int, dailyBudget: real, insightRows: seq<StoredInsight>, agents: seq<Agent>,
                           inProgressCount: nat) returns (data: StandupData)
    ensures data == StandupOf(completed, failed, DetectorSpent(LatestBySource(today), Baseline(history, todayStart)),
                              dailyBudget, insightRows, agents, inProgressCount)
    ensures data.blockedCount == 0 && |data.activeInsights| <= 10
    ensures |data.failedTasks| == |failed| && forall i :: 0 <= i < |failed| ==> data.failedTasks[i].reason.None?
  {
    var order, latestBySource := FillFirstWins(today, SourceOf);
    var viaLitellm := SpendOf(latestBySource, Litellm);
    var delta := OpenrouterDelta(Lookup(latestBySource, OpenrouterDirect), Baseline(history, todayStart));
    var viaDirect := delta + SpendOf(latestBySource, OpenaiDirect) + SpendOf(latestBySource, AnthropicDirect);
    var budgetSpent := MaxReal(viaLitellm, viaDirect);
    assert budgetSpent == DetectorSpent(LatestBySource(today), Baseline(history, todayStart));
    data := StandupOf(completed, failed, budgetSpent, dailyBudget, insightRows, agents, inProgressCount);
  }

  /** The remaining budget is not floored at 0: an overspent day reports a negative remainder. */
  lemma OverspentIsNegative(completed: seq<TaskRow>, failed: seq<TaskRow>, spent: real, dailyBudget: real,
                            insightRows: seq<StoredInsight>, agents: seq<Agent>, n: nat)
    requires spent >= dailyBudget + 0.001
    ensures StandupOf(completed, failed, spent, dailyBudget, insightRows, agents, n).budgetRemaining < 0.0
  {
  }

  // ------------------------------------------------------------------ the prompt

  /** The text of each element of `s`, in order. */
  function MapLines<T>(s: seq<T>, f: T -> string): (r: seq<string>)
    ensures |r| == |s|
    ensures forall i :: 0 <= i < |s| ==> r[i] == f(s[i])
  {
    if s == [] then [] else MapLines(s[..|s| - 1], f) + [f(s[|s| - 1])]
  }

  /** `t.cost ? ...`: a cost is shown when it is present and not 0. */
  predicate CostShown(c: Option<real>) {
    c.Some? && c.value != 0.0
  }

  function CompletedLine(t: CompletedTask, num: real -> string): string {
    "- \"" + t.title + "\" par " + t.agent + (if CostShown(t.cost) then " ($" + num(t.cost.value) + ")" else "")
  }

  function FailedLine(t: FailedTask): string {
    "- \"" + t.title + "\" par " + t.agent + (if t.reason.Some? && t.reason.value != "" then " — Raison: " + t.reason.value else "")
  }

  function AgentText(a: AgentLine): string {
    "- " + a.name + ": " + StatusName(a.status)
  }

  /** `i.severity.toUpperCase()`. */
  function SeverityUpper(s: Severity): string {
    match s
    case Info => "INFO"
    case Warning => "WARNING"
    case Critical => "CRITICAL"
  }

  function InsightLine(i: ActiveInsight): string {
    "- [" + SeverityUpper(i.severity) + "] " + i.title
  }

  const Text0: string := "=== DONNEES DU JOUR ===\n"
  const Text1: string := "## Taches completees hier: "
  const Text2: string := "\n## Taches echouees: "
  const Text3: string := "\n## Budget"
  const Text4: string := "- Depense aujourd'hui: $"
  const Text5: string := "- Restant: $"
  const Text6: string := " / $5.00"
  const Text7: string := "\n## Etat actuel"
  const Text8: string := "- Taches en cours: "
  const Text9: string := "- Taches bloquees: "
  const Text10: string := "\n## Agents"
  const Text11: string := "\n## Anomalies detectees: "
  const Text12: string := "\n=== INSTRUCTIONS ==="
  const Text13: string := "Genere un briefing matinal structure avec:"
  const Text14: string := "1. Resume de la veille (completions + echecs)"
  const Text15: string := "2. Etat budget et projection"
  const Text16: string := "3. Points d'attention (anomalies, blocages)"
  const Text17: string := "4. Priorites recommandees pour la journee"
  const Text18: string := "\n"

  /** The lines up to and including the agents, in the order they are pushed. */
  function HeadLines(d: StandupData, num: real -> string): seq<string> {
    [Text0]
    + [Text1 + NatToString(|d.completedYesterday|)]
    + MapLines(d.completedYesterday, (t: CompletedTask) => CompletedLine(t, num))
    + [Text2 + NatToString(|d.failedTasks|)]
    + MapLines(d.failedTasks, FailedLine)
    + [Text3]
    + [Text4 + num(d.budgetSpent)]
    + [Text5 + num(d.budgetRemaining) + Text6]
    + [Text7]
    + [Text8 + NatToString(d.inProgressCount)]
    + [Text9 + NatToString(d.blockedCount)]
    + [Text10]
    + MapLines(d.agentStatuses, AgentText)
  }

  /** The anomalies section, a heading and one line per insight, is added only when there are insights. */
  function WithAnomalies(lines: seq<string>, active: seq<ActiveInsight>): seq<string> {
    if active == [] then lines
    else lines + [Text11 + NatToString(|active|)] + MapLines(active, InsightLine)
  }

  function PromptLines(d: StandupData, num: real -> string): seq<string> {
    WithAnomalies(HeadLines(d, num), d.activeInsights)
    + [Text12]
    + [Text13]
    + [Text14]
    + [Text15]
    + [Text16]
    + [Text17]
  }

  /** `buildStandupPrompt(data)`: the lines pushed in order, joined by newlines. */
  method BuildStandupPrompt(data: StandupData, num: real -> string) returns (prompt: string)
    ensures prompt == Join(PromptLines(data, num), Text18)
  {
    var lines: seq<string> := [Text0];
    lines := lines + [Text1 + NatToString(|data.completedYesterday|)];
    lines := PushAll(lines, data.completedYesterday, (t: CompletedTask) => CompletedLine(t, num));
    lines := lines + [Text2 + NatToString(|data.failedTasks|)];
    lines := PushAll(lines, data.failedTasks, FailedLine);
    lines := lines + [Text3];
    lines := lines + [Text4 + num(data.budgetSpent)];
    lines := lines + [Text5 + num(data.budgetRemaining) + Text6];
    lines := lines + [Text7];
    lines := lines + [Text8 + NatToString(data.inProgressCount)];
    lines := lines + [Text9 + NatToString(data.blockedCount)];
    lines := lines + [Text10];
    lines := PushAll(lines, data.agentStatuses, AgentText);
    if |data.activeInsights| > 0 {
      lines := lines + [Text11 + NatToString(|data.activeInsights|)];
      lines := PushAll(lines, data.activeInsights, InsightLine);
    }
    lines := lines + [Text12];
    lines := lines + [Text13];
    lines := lines + [Text14];
    lines := lines + [Text15];
    lines := lines + [Text16];
    lines := lines + [Text17];
    prompt := Join(lines, Text18);
  }

  /** `for (const x of s) lines.push(f(x))`. */
  method PushAll<T>(lines: seq<string>, s: seq<T>, f: T -> string) returns (r: seq<string>)
    ensures r == lines + MapLines(s, f)
  {
    r := lines;
    var i := 0;
    while i < |s|
      invariant 0 <= i <= |s|
      invariant r == lines + MapLines(s[..i], f)
    {
      assert s[..i + 1][..i] == s[..i];
      r := r + [f(s[i])];
      i := i + 1;
    }
    assert s[..i] == s;
  }

  /**
   * The prompt has 16 lines plus one per completed task, failed task and agent, plus a heading
   * and one line per insight when there are insights.
   */
  lemma PromptLineCount(d: StandupData, num: real -> string)
    ensures |HeadLines(d, num)| == 10 + |d.completedYesterday| + |d.failedTasks| + |d.agentStatuses|
    ensures |PromptLines(d, num)| == 16 + |d.completedYesterday| + |d.failedTasks| + |d.agentStatuses|
      + (if d.activeInsights == [] then 0 else 1 + |d.activeInsights|)
  {
  }

  /** The lines after the agents when there are active insights: a heading and one line per insight. */
  function AnomalyLines(active: seq<ActiveInsight>): (r: seq<string>)
    ensures r == [] <==> active == []
  {
    if active == [] then [] else [Text11 + NatToString(|active|)] + MapLines(active, InsightLine)
  }

  /** The closing instructions, in order. */
  const Instructions: seq<string> := [Text12, Text13, Text14, Text15, Text16, Text17]

  /** What six lines appended after w leave in place: w itself, and the six after it. */
  lemma SixAppended<T>(w: seq<T>, a: T, b: T, c: T, e: T, f: T, g: T)
    ensures var p := w + [a] + [b] + [c] + [e] + [f] + [g];
      p[..|w|] == w && p[|w|..] == [a, b, c, e, f, g]
  {
  }

  /** A heading and a block appended after h, regrouped. */
  lemma HeadingThenBlock<T>(h: seq<T>, x: T, m: seq<T>)
    ensures h + [x] + m == h + ([x] + m)
  {
  }

  /**
   * After the agents come exactly the anomalies section, which is empty when no insight is
   * active, and then the instructions.
   */
  lemma AnomaliesThenInstructions(d: StandupData, num: real -> string)
    ensures PromptLines(d, num)[|HeadLines(d, num)|..] == AnomalyLines(d.activeInsights) + Instructions
  {
    var h := HeadLines(d, num);
    var w := WithAnomalies(h, d.activeInsights);
    SixAppended(w, Text12, Text13, Text14, Text15, Text16, Text17);
    if d.activeInsights != [] {
      HeadingThenBlock(h, Text11 + NatToString(|d.activeInsights|), MapLines(d.activeInsights, InsightLine));
    }
    assert w == h + AnomalyLines(d.activeInsights);
    SuffixOfPrefix(PromptLines(d, num), w, h);
  }

  /** If p begins with w and w begins with h, what follows h in p is what follows h in w, then the rest of p. */
  lemma SuffixOfPrefix<T>(p: seq<T>, w: seq<T>, h: seq<T>)
    requires |h| <= |w| <= |p| && p[..|w|] == w && w[..|h|] == h
    ensures p[|h|..] == w[|h|..] + p[|w|..]
  {
  }

  /** A line followed by four more lines and a block stays at the index it was pushed at. */
  lemma PushedThenFourAndBlock<T>(a: seq<T>, x: T, b: T, c: T, e: T, f: T, m: seq<T>)
    ensures (a + [x] + [b] + [c] + [e] + [f] + m)[|a|] == x
  {
  }

  /** The budget line always names a $5.00 limit, whatever the daily limit setting is. */
  lemma PromptLimitFixed(d: StandupData, num: real -> string)
    ensures PromptLines(d, num)[5 + |d.completedYesterday| + |d.failedTasks|] == "- Restant: $" + num(d.budgetRemaining) + " / $5.00"
  {
    var a := [Text0]
      + [Text1 + NatToString(|d.completedYesterday|)]
      + MapLines(d.completedYesterday, (t: CompletedTask) => CompletedLine(t, num))
      + [Text2 + NatToString(|d.failedTasks|)]
      + MapLines(d.failedTasks, FailedLine)
      + [Text3]
      + [Text4 + num(d.budgetSpent)];
    PushedThenFourAndBlock(a, Text5 + num(d.budgetRemaining) + Text6, Text7, Text8 + NatToString(d.inProgressCount),
      Text9 + NatToString(d.blockedCount), Text10, MapLines(d.agentStatuses, AgentText));
    var h := HeadLines(d, num);
    var w := WithAnomalies(h, d.activeInsights);
    if d.activeInsights != [] {
      HeadingThenBlock(h, Text11 + NatToString(|d.activeInsights|), MapLines(d.activeInsights, InsightLine));
    }
    assert w[..|h|] == h;
    SixAppended(w, Text12, Text13, Text14, Text15, Text16, Text17);
    assert PromptLines(d, num)[..|h|] == h;
  }

  /** A cost of 0 is falsy: the line of a task that cost nothing is that of a task without a cost. */
  lemma ZeroCostHidden(title: string, agent: string, num: real -> string)
    ensures CompletedLine(CompletedTask(title, agent, Some(0.0)), num) == CompletedLine(CompletedTask(title, agent, None), num)
    ensures CompletedLine(CompletedTask(title, agent, None), num) == "- \"" + title + "\" par " + agent
  {
  }

  // ------------------------------------------------------------------ the fallback summary

  function FallbackLines(d: StandupData, num: real -> string): seq<string> {
    var base := ["Hier: " + NatToString(|d.completedYesterday|) + " taches completees, " + NatToString(|d.failedTasks|) + " echouees."]
      + ["Budget: $" + num(d.budgetSpent) + " depenses, $" + num(d.budgetRemaining) + " restant."]
      + ["En cours: " + NatToString(d.inProgressCount) + " taches. Bloquees: " + NatToString(d.blockedCount) + "."];
    if |d.activeInsights| > 0 then base + ["Attention: " + NatToString(|d.activeInsights|) + " insight(s) actif(s)."] else base
  }

  /** `buildFallbackSummary(data)`: the lines pushed in order, joined by spaces. */
  method BuildFallbackSummary(data: StandupData, num: real -> string) returns (summary: string)
    ensures summary == Join(FallbackLines(data, num), " ")
  {
    var lines: seq<string> := ["Hier: " + NatToString(|data.completedYesterday|) + " taches completees, " + NatToString(|data.failedTasks|) + " echouees."];
    lines := lines + ["Budget: $" + num(data.budgetSpent) + " depenses, $" + num(data.budgetRemaining) + " restant."];
    lines := lines + ["En cours: " + NatToString(data.inProgressCount) + " taches. Bloquees: " + NatToString(data.blockedCount) + "."];
    if |data.activeInsights| > 0 {
      lines := lines + ["Attention: " + NatToString(|data.activeInsights|) + " insight(s) actif(s)."];
    }
    summary := Join(lines, " ");
  }

  /** Three fixed sentences, and a fourth, the attention line, exactly when there are active insights. */
  lemma FallbackShape(d: StandupData, num: real -> string)
    ensures var l := FallbackLines(d, num);
      (|l| == 4 <==> d.activeInsights != []) && (|l| == 3 <==> d.activeInsights == []) &&
      Join(l, " ") == l[0] + " " + (l[1] + " " + (if d.activeInsights == [] then l[2] else l[2] + " " + l[3]))
  {
    var l := FallbackLines(d, num);
    JoinCons(l, " ");
    JoinCons(l[1..], " ");
    assert l[1..][1..] == l[2..];
    if d.activeInsights != [] {
      JoinCons(l[2..], " ");
      assert l[2..][1..] == [l[3]];
    } else {
      assert l[2..] == [l[2]];
    }
  }

  lemma JoinCons(parts: seq<string>, sep: string)
    requires |parts| >= 2
    ensures Join(parts, sep) == parts[0] + sep + Join(parts[1..], sep)
  {
  }

  // ------------------------------------------------------------------ the briefing

  /** What the completion call gave: an exception (network or JSON), a non-OK status, or a body. */
  datatype LlmReply = Threw | NotOk | Ok(content: Option<string>)

  /**
   * The summary: the reply's `choices[0].message.content` when the call succeeded and the
   * content is present (`??` keeps an empty string), the fallback otherwise.
   */
  function Summary(reply: LlmReply, fallback: string): (r: string)
    ensures reply.Ok? && reply.content.Some? ==> r == reply.content.value
    ensures !(reply.Ok? && reply.content.Some?) ==> r == fallback
  {
    match reply
    case Threw => fallback
    case NotOk => fallback
    case Ok(content) => content.GetOr(fallback)
  }

  const EcoAction: Action := Action("Activer mode eco", "webhook", [("url", "/api/v1/budget/eco-mode"), ("method", "POST")])
  const FailedAction: Action := Action("Voir taches echouees", "navigate", [("url", "/projects?status=failed")])
  const CriticalAction: Action := Action("Voir insights critiques", "navigate", [("url", "/insights?severity=critical")])

  predicate HasCritical(active: seq<ActiveInsight>) {
    exists i :: 0 <= i < |active| && active[i].severity == Critical
  }

  function SuggestedActions(d: StandupData): seq<Action> {
    (if d.budgetRemaining < 1.5 then [EcoAction] else [])
    + (if |d.failedTasks| > 0 then [FailedAction] else [])
    + (if HasCritical(d.activeInsights) then [CriticalAction] else [])
  }

  /** The suggested actions, pushed in the order of the three checks. */
  method SuggestActions(data: StandupData) returns (actions: seq<Action>)
    ensures actions == SuggestedActions(data)
  {
    actions := [];
    if data.budgetRemaining < 1.5 {
      actions := actions + [EcoAction];
    }
    if |data.failedTasks| > 0 {
      actions := actions + [FailedAction];
    }
    var critical := CountCritical(data.activeInsights);
    if critical > 0 {
      actions := actions + [CriticalAction];
    }
  }

  /** `activeInsights.filter((i) => i.severity === 'critical').length`. */
  function CountCritical(active: seq<ActiveInsight>): (n: nat)
    ensures n > 0 <==> HasCritical(active)
  {
    if active == [] then 0
    else
      var rest := CountCritical(active[1..]);
      assert HasCritical(active[1..]) ==> HasCritical(active) by {
        if HasCritical(active[1..]) {
          var i :| 0 <= i < |active[1..]| && active[1..][i].severity == Critical;
          assert active[i + 1] == active[1..][i];
        }
      }
      assert HasCritical(active) && active[0].severity != Critical ==> HasCritical(active[1..]) by {
        if HasCritical(active) && active[0].severity != Critical {
          var i :| 0 <= i < |active| && active[i].severity == Critical;
          assert active[1..][i - 1] == active[i];
        }
      }
      (if active[0].severity == Critical then 1 else 0) + rest
  }

  /**
   * The eco-mode action is suggested exactly when less than $1.50 remains, the failed-tasks one
   * exactly when a task failed, the critical-insights one exactly when an active insight is critical.
   */
  lemma SuggestionsIff(d: StandupData)
    ensures EcoAction in SuggestedActions(d) <==> d.budgetRemaining < 1.5
    ensures FailedAction in SuggestedActions(d) <==> |d.failedTasks| > 0
    ensures CriticalAction in SuggestedActions(d) <==> HasCritical(d.activeInsights)
  {
    ActionsDistinct();
  }

  lemma ActionsDistinct()
    ensures EcoAction != FailedAction && EcoAction != CriticalAction && FailedAction != CriticalAction
  {
    assert EcoAction.text[0] == 'A' && FailedAction.text[0] == 'V';
    assert FailedAction.text[5] == 't' && CriticalAction.text[5] == 'i';
  }

  /** The reply's content, or the fallback summary built only when the call failed or had no content. */
  method SummaryOrFallback(reply: LlmReply, data: StandupData, num: real -> string) returns (summary: string)
    ensures summary == Summary(reply, Join(FallbackLines(data, num), " "))
  {
    match reply {
      case Threw =>
        summary := BuildFallbackSummary(data, num);
      case NotOk =>
        summary := BuildFallbackSummary(data, num);
      case Ok(content) =>
        if content.Some? {
          summary := content.value;
        } else {
          summary := BuildFallbackSummary(data, num);
        }
    }
  }

  datatype Briefing = Briefing(title: string, description: string, suggestedActions: seq<Action>)

  /**
   * `generateStandupBriefing()` for the gathered `data`: `llm` answers the prompt, `dateText`
   * is today's date as `toLocaleDateString('fr-FR', ...)` writes it.
   */
  method GenerateStandupBriefing(data: StandupData, llm: string -> LlmReply, dateText: string, num: real -> string)
    returns (b: Briefing)
    ensures b.title == "Briefing du " + dateText
    ensures b.description == Summary(llm(Join(PromptLines(data, num), Text18)), Join(FallbackLines(data, num), " "))
    ensures b.suggestedActions == SuggestedActions(data)
  {
    var prompt := BuildStandupPrompt(data, num);
    var reply := llm(prompt);
    var summary := SummaryOrFallback(reply, data, num);
    var actions := SuggestActions(data);
    b := Briefing("Briefing du " + dateText, summary, actions);
  }
}
