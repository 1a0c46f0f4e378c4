# Palais and Remotion core, modelled in Dafny

This project models the logic core of the Palais agent platform and of its Remotion render servers. Each source file becomes one Dafny module, named after the file's role. The model covers:

- **Agent memory graph.** The `memory_nodes` and `memory_edges` tables (`MemorySchema`) are kept as sequences with serial ids, together with the enum and foreign-key checks that make an insert fail. Around them sit:
  - retroactive `related_to` enrichment from the six nearest vector hits (`MemoryEnrich`);
  - LLM triplet extraction into semantic nodes and `learned_from` edges (`MemoryExtract`);
  - ingestion of activity events as episodic nodes (`MemoryIngest`);
  - the node and search routes (`MemoryNodesRoute`, `MemorySearchRoute`);
  - the MCP memory tool, with its vector-then-full-text merge (`McpMemoryTool`).

  The embedding service, the vector index (`VectorIndex`) and the LLM are oracles passed in as parameters.
- **Graph algorithms.**
  - The critical path: Kahn's topological order with longest-distance relaxation, then the trace back from the heaviest node (`CriticalPath`).
  - The DFS cycle check run before a task dependency is added (`DependencyCycle`).
- **Request routing.**
  - MCP tool-name parsing and dispatch (`McpExecutor`).
  - The JSON-RPC 2.0 dispatcher, whose error codes follow section 5.1 of the JSON-RPC 2.0 Specification (`McpRouter`).
  - The SSE session table and its event frames, written in the event-stream format of section 9.2 of the WHATWG HTML Living Standard (`McpSse`).
  - The server hook's authentication decision (`AuthHook`).
- **Rules and scheduling.**
  - The greedy budget scheduler (`BudgetSchedule`, with the per-source spend in `BudgetSpend`).
  - The four insight detectors and their deduplication (`InsightDetector`).
  - The standup data, prompt, fallback summary and suggested actions (`Standup`).
  - The LiteLLM per-model spend mapping (`LiteLlm`).
- **Tables.**
  - The MCP task and project tools (`McpTasksTool`, `McpProjectsTool`).
  - The project route with its six default Kanban columns (`Projects`, `ProjectsRoute`).
  - Project slugs (`Slug`).
  - The Kaneo migration with its status mapping (`KaneoStatus`, `KaneoMigration`).
- **Text processing.**
  - The troubleshooting-markdown section parser (`RexSections`).
  - The Plane documentation chunker and crawler (`PlaneChunker`, `PlaneScraper`).
- **Render queues.**
  - The Remotion job map and its single promise chain (`RenderQueue`).
  - The Express routes in front of it (`RenderRoutes`).
  - The standalone render server with its token check (`RenderServer`).
- **Health.** The health tables (`HealthStore`), the webhook's online/offline rule (`HealthWebhook`), backup staleness alerts (`HealthBackup`), and the latest-per-key grouping of the nodes route and the health page (`HealthNodes`).

Shared helpers:

- `Wrappers` holds `Option`.
- `JsText` holds the JavaScript string operations the code relies on: `parseInt`, first-occurrence `replace`, `trim`, `split`, `join` and ASCII `toLowerCase`.
- `Sorting` is a stable descending sort.
- `FirstWins` is the "keep the first row of each key" `Map` fill that several handlers use.

State the source changes in place is modelled as classes:

- tables, the job maps and the session map are fields of type `seq` or `map`;
- handlers are methods with `modifies` clauses;
- a handler's new state is tied to specification functions, and the lemmas state the promised properties of those functions.

Clocks, UUIDs, HTTP answers, query results and number formatting are parameters.

Where the code and its documentation disagree, the model follows the code:

- **Vector search order.** The MCP memory search returns the vector-matched nodes in table order, not in score order.
- **Payload field name.** The MCP search reads the point field `node_id`, while every writer stores `nodeId`.
- **Point ids.** Point ids written by the MCP store are UUIDs, and `parseInt` can read one as an unrelated node id.
- **Render server status.** The render server's entry is already `rendering` when its reply says `pending`.
- **Render queue chain.** The render queue's chain has no `catch`. Once a queued job is cancelled, its step throws and the chain rejects, so no step queued after it runs (`RenderQueue.CancelledJobHaltsChain`). Nothing handles that rejection; under Node's default settings (version 15 on) an unhandled rejection ends the process, and the in-memory jobs go with it.
- **Webhook writes.** The health webhook writes the node row before the check rows, with no transaction around the two. A check row that the columns refuse therefore leaves the node updated and the checks unwritten.
- **Kaneo slugs.** The Kaneo migration's slug is cut at 100 characters after the dashes are trimmed, so it can end in a dash.
- **Standup prompt.** The standup prompt always names a $5.00 limit, failed tasks never carry a reason, and the blocked count is always 0.

## Model

| member | source | states |
|---|---|---|
| AuthHook.ApiKey | roles/palais/files/app/src/hooks.server.ts:4 | the key is never empty: an absent or empty setting falls back to "dev-key", any other setting is used as is |
| AuthHook.Handle | roles/palais/files/app/src/hooks.server.ts:6-41 | a request that is let through is authenticated exactly when its source is api or cookie |
| AuthHook.ApiKeyAuthenticates | roles/palais/files/app/src/hooks.server.ts:8-12 | the configured key (by default "dev-key") authenticates with source api on any path |
| AuthHook.CookieAuthenticates | roles/palais/files/app/src/hooks.server.ts:15-19 | any non-empty session cookie authenticates with source cookie, even beside a wrong key |
| AuthHook.AuthenticatedIff | roles/palais/files/app/src/hooks.server.ts:8-40 | a request is authenticated iff it carries the configured key or a non-empty session cookie |
| AuthHook.AnonymousRequest | roles/palais/files/app/src/hooks.server.ts:21-40 | without credentials: public paths pass unauthenticated with source none, other /api/ paths get 401 JSON, everything else a 302 to /login |
| AuthHook.PublicByPrefix | roles/palais/files/app/src/hooks.server.ts:22-23 | public paths match by prefix, so "/api/healthz" and anything under "/dl/" or "/login" is public |
| AuthHook.McpWithoutKey | roles/palais/files/app/src/hooks.server.ts:25-30 | /api/mcp without key or cookie is answered 401 |
| BudgetSchedule.WeightAsWrittenLeaks | roles/palais/files/app/src/routes/api/v1/budget/schedule/+server.ts:17-23 | as written, a priority sent as "toString" reads the inherited method instead of falling back to 1, so the task's score is NaN |
| BudgetSchedule.WeightAgrees | roles/palais/files/app/src/routes/api/v1/budget/schedule/+server.ts:17-23 | away from the inherited member names the corrected weight and score equal the ones written |
| BudgetSchedule.Weight | roles/palais/files/app/src/routes/api/v1/budget/schedule/+server.ts:17-23 | with the corrected lookup a priority weighs between 1 and 5 |
| BudgetSchedule.WeightTable | roles/palais/files/app/src/routes/api/v1/budget/schedule/+server.ts:17-23 | the corrected weights are 5, 4, 3, 2, 1 for urgent, high, medium, low, none, and any other priority weighs 1 |
| BudgetSchedule.Score | roles/palais/files/app/src/routes/api/v1/budget/schedule/+server.ts:61-64 | every score is positive |
| BudgetSchedule.ScoreMonotone | roles/palais/files/app/src/routes/api/v1/budget/schedule/+server.ts:61-64 | at equal cost the heavier priority scores higher; at equal weight the cheaper task (above the 0.001 floor) scores higher |
| BudgetSchedule.CheapScore | roles/palais/files/app/src/routes/api/v1/budget/schedule/+server.ts:64 | a cost at or below 0.001, zero or negative included, scores 1000 times its weight |
| BudgetSchedule.Remaining | roles/palais/files/app/src/routes/api/v1/budget/schedule/+server.ts:59 | the remaining budget is never negative and is 0 or the limit minus what was spent |
| BudgetSchedule.FillRunNow | roles/palais/files/app/src/routes/api/v1/budget/schedule/+server.ts:67-79 | the loop produces exactly the greedy fill of the ranked tasks against the remaining budget |
| BudgetSchedule.Schedule | roles/palais/files/app/src/routes/api/v1/budget/schedule/+server.ts:31-87 | no tasks gives empty lists and remaining 0 with no spentToday; otherwise the reply is the greedy fill of the score-ranked tasks against max(0, limit - spent), with that remaining budget and the spend |
| BudgetSchedule.GreedyPermutation | roles/palais/files/app/src/routes/api/v1/budget/schedule/+server.ts:72-79 | runNow and defer together are a permutation of the visited tasks |
| BudgetSchedule.GreedySpend | roles/palais/files/app/src/routes/api/v1/budget/schedule/+server.ts:72-79 | what runs costs exactly what the budget loses, and a non-negative budget is never overdrawn |
| BudgetSchedule.GreedyLeftAtMost | roles/palais/files/app/src/routes/api/v1/budget/schedule/+server.ts:72-79 | with no negative estimate the budget left never exceeds the starting budget |
| BudgetSchedule.DeferredDoNotFit | roles/palais/files/app/src/routes/api/v1/budget/schedule/+server.ts:73-78 | with no negative estimate, every deferred task costs more than the budget left at the end |
| BudgetSchedule.AllFit | roles/palais/files/app/src/routes/api/v1/budget/schedule/+server.ts:72-79 | when the budget covers all (non-negative) estimates, every task runs, in order |
| BudgetSchedule.DeferredDoesNotStop | roles/palais/files/app/src/routes/api/v1/budget/schedule/+server.ts:72-79 | a task that does not fit is deferred without stopping the scan: a later cheaper task still runs |
| BudgetSchedule.GreedyKeepsOrder | roles/palais/files/app/src/routes/api/v1/budget/schedule/+server.ts:65-79 | both lists keep the descending-score order of the ranking |
| BudgetSchedule.ReplyLists | roles/palais/files/app/src/routes/api/v1/budget/schedule/+server.ts:62-86 | the reply's lists are a permutation of the input tasks, each in descending score order, and runNow fits in the remaining budget |
| BudgetSchedule.SpentPerSource | roles/palais/files/app/src/routes/api/v1/budget/schedule/+server.ts:48-58 | spentToday counts each source once, by its latest snapshot: the larger of the litellm spend and the sum of the three direct sources |
| BudgetSpend.MaxReal | roles/palais/files/app/src/routes/api/v1/budget/schedule/+server.ts:53-59 | Math.max of two reals is one of them and at least both |
| BudgetSpend.SpendOf | roles/palais/files/app/src/routes/api/v1/budget/schedule/+server.ts:54-57 | a source without a snapshot today contributes 0 |
| BudgetSpend.LatestIsFirst | roles/palais/files/app/src/routes/api/v1/budget/schedule/+server.ts:43-51 | each source with a snapshot today has a latest one: the first row of that source in capturedAt-descending order |
| CriticalPath.ComputeCriticalPath | roles/palais/files/app/src/lib/server/utils/critical-path.ts:3-56 | for tasks with distinct ids: no tasks gives []; otherwise the path is a dependency chain whose weight is the distance of its last task, that task is the first with the largest positive distance (else the first task), the path starts at a task that kept its duration and each later task's distance is the earlier, dequeued one's plus its duration, the dequeue order is topological, every dequeued task's distance is its heaviest chain's weight, and every task's distance, dequeued or not, is the largest of its duration and each dequeued dependency's distance plus its duration |
| CriticalPath.PushDeps | roles/palais/files/app/src/lib/server/utils/critical-path.ts:12-15 | each listed dep gets the task's id appended to its adjacency list, in order |
| CriticalPath.BuildIndex | roles/palais/files/app/src/lib/server/utils/critical-path.ts:10-16 | the first loop builds the adjacency lists and sets each task's in-degree to its number of deps |
| CriticalPath.InitDist | roles/palais/files/app/src/lib/server/utils/critical-path.ts:23-26 | every task's distance starts at its duration and the tasks without deps are queued in task order |
| CriticalPath.Drain | roles/palais/files/app/src/lib/server/utils/critical-path.ts:28-39 | the Kahn loop terminates; every task has a distance, prev links attain the distances, every task was relaxed from each dequeued dependency, the dequeue order repeats nothing and is topological, and the tasks never dequeued all wait on one another |
| CriticalPath.ScanSuccessors | roles/palais/files/app/src/lib/server/utils/critical-path.ts:30-38 | relaxing u's successors keeps the loop invariant and only appends to the dequeue order |
| CriticalPath.MaxNode | roles/palais/files/app/src/lib/server/utils/critical-path.ts:42-46 | the chosen node is the first task with the largest distance above 0, or the first task when no distance is positive |
| CriticalPath.TraceBack | roles/palais/files/app/src/lib/server/utils/critical-path.ts:48-53 | the path is the chain of prev links ending at the chosen node, earliest first |
| CriticalPath.CycleNeverDequeued | roles/palais/files/app/src/lib/server/utils/critical-path.ts:28-39 | a task on a dependency cycle is never dequeued |
| CriticalPath.NothingDequeued | roles/palais/files/app/src/lib/server/utils/critical-path.ts:23-55 | when nothing is dequeued, as when every task waits on a cycle, every distance stays the task's duration and the path is the single FirstMax task |
| CriticalPath.AllDequeued | roles/palais/files/app/src/lib/server/utils/critical-path.ts:28-39 | with acyclic dependencies on known tasks every task is dequeued and its distance is the weight of its heaviest chain |
| CriticalPath.HeaviestPath | roles/palais/files/app/src/lib/server/utils/critical-path.ts:41-55 | with non-negative durations, no chain ending at a dequeued task is heavier than the returned path |
| CriticalPath.ChainRanks | roles/palais/files/app/src/lib/server/utils/critical-path.ts:28-39 | along a chain ending at a dequeued task every task is dequeued, the first strictly earlier than the last |
| CriticalPath.WeightNonNegative | roles/palais/files/app/src/lib/server/utils/critical-path.ts:24-31 | with non-negative durations a chain weighs at least 0 |
| DependencyCycle.ListedMembers | roles/palais/files/app/src/lib/server/utils/graph.ts:8-11 | y is on x's stored list exactly when a row says x depends on y |
| DependencyCycle.StoredAdjacency | roles/palais/files/app/src/lib/server/utils/graph.ts:8-11 | the first loop gives every task the targets of its rows, in row order |
| DependencyCycle.ProposedAdjacency | roles/palais/files/app/src/lib/server/utils/graph.ts:13-15 | the proposed edge is appended to taskId's list, which then exists |
| DependencyCycle.Dfs | roles/palais/files/app/src/lib/server/utils/graph.ts:21-31 | true only when a cycle is reachable from the root; false leaves the node finished, the stack as it was, and the finished set only grown |
| DependencyCycle.NoCycleFromFinished | roles/palais/files/app/src/lib/server/utils/graph.ts:21-31 | no cycle is reachable from a task the search has finished |
| DependencyCycle.HasCycle | roles/palais/files/app/src/lib/server/utils/graph.ts:4-34 | the answer is true exactly when a cycle is reachable from taskId in the stored graph plus the proposed edge |
| DependencyCycle.ProposedEdge | roles/palais/files/app/src/lib/server/utils/graph.ts:8-15 | an edge of the searched graph is a stored row or the proposed edge |
| DependencyCycle.SelfDependency | roles/palais/files/app/src/lib/server/utils/graph.ts:14-22 | a task proposed to depend on itself is always a cycle |
| DependencyCycle.AcyclicMeaning | roles/palais/files/app/src/lib/server/utils/graph.ts:4-34 | over acyclic stored rows, the proposed edge closes a cycle exactly when taskId is reachable from dependsOnId |
| DependencyCycle.ProposedCycle | roles/palais/files/app/src/lib/server/utils/graph.ts:13-15 | a cycle after the proposed edge must use that edge, so dependsOnId reaches taskId along stored rows |
| InsightDetector.Collect | roles/palais/files/app/src/lib/server/insights/detector.ts:29-56 | the detector loop emits make(row) for each kept row, in row order |
| InsightDetector.EmitMembers | roles/palais/files/app/src/lib/server/insights/detector.ts:150-164 | an insight is emitted exactly for each kept row |
| InsightDetector.TaskTitle | roles/palais/files/app/src/lib/server/insights/detector.ts:34-35 | a title is found exactly when some task has that id |
| InsightDetector.BusyAgents | roles/palais/files/app/src/lib/server/insights/detector.ts:26-27 | exactly the agents whose status is busy |
| InsightDetector.DetectAgentStuck | roles/palais/files/app/src/lib/server/insights/detector.ts:22-59 | the stuck-agent insights for the busy agents, with the current task's title or none |
| InsightDetector.StuckReported | roles/palais/files/app/src/lib/server/insights/detector.ts:29-41 | a busy agent with a current task last seen more than two hours ago is reported |
| InsightDetector.StuckOnlyIfStuck | roles/palais/files/app/src/lib/server/insights/detector.ts:37-41 | every stuck report is a warning titled after an agent that is stuck |
| InsightDetector.Baseline | roles/palais/files/app/src/lib/server/insights/detector.ts:83-87 | the baseline is among the latest 100 openrouter rows and was captured before today |
| InsightDetector.FirstBefore | roles/palais/files/app/src/lib/server/insights/detector.ts:87 | the row kept by the filter was captured before today |
| InsightDetector.BudgetInsights | roles/palais/files/app/src/lib/server/insights/detector.ts:98-127 | at most one budget insight |
| InsightDetector.DetectBudgetWarning | roles/palais/files/app/src/lib/server/insights/detector.ts:64-130 | the budget insight computed from the latest snapshot per source and the openrouter baseline |
| InsightDetector.BudgetThresholds | roles/palais/files/app/src/lib/server/insights/detector.ts:98-101 | below 85% of the budget no insight, from 85% a warning, from 95% a critical one |
| InsightDetector.ZeroBudget | roles/palais/files/app/src/lib/server/insights/detector.ts:98-100 | with a zero budget any positive spend is critical and no spend gives nothing (NaN compares false) |
| InsightDetector.DeltaCases | roles/palais/files/app/src/lib/server/insights/detector.ts:89-91 | the openrouter delta is never negative, 0 without a latest row or a baseline amount, else max(0, latest - baseline) |
| InsightDetector.DetectErrorPattern | roles/palais/files/app/src/lib/server/insights/detector.ts:135-167 | one error-pattern insight per recurring action count, in row order |
| InsightDetector.ErrorReported | roles/palais/files/app/src/lib/server/insights/detector.ts:150-164 | each recurring action gets a warning titled after it and nothing else is reported |
| InsightDetector.DetectDependencyBlocked | roles/palais/files/app/src/lib/server/insights/detector.ts:172-217 | an insight for each unfinished task held by an offline or error agent that some task depends on |
| InsightDetector.BlockedReported | roles/palais/files/app/src/lib/server/insights/detector.ts:192-212 | every blocked report is critical, about entity task with the id of such a task |
| InsightDetector.NoDependentsNoInsight | roles/palais/files/app/src/lib/server/insights/detector.ts:188-192 | a task nobody depends on is never reported |
| InsightDetector.OpenKeys | roles/palais/files/app/src/lib/server/insights/detector.ts:233-237 | the key type:title of every unacknowledged stored insight is in the set |
| InsightDetector.Fresh | roles/palais/files/app/src/lib/server/insights/detector.ts:238 | the filter keeps at most the detected insights |
| InsightDetector.InsightStore.StoreNew | roles/palais/files/app/src/lib/server/insights/detector.ts:232-254 | the returned insights are the detected ones whose key is not open, and each is appended as stored |
| InsightDetector.InsightStore.InsertAll | roles/palais/files/app/src/lib/server/insights/detector.ts:241-252 | the insert loop appends every new insight, unacknowledged, in order |
| InsightDetector.InsightStore.RunAllDetectors | roles/palais/files/app/src/lib/server/insights/detector.ts:222-255 | the four detectors' findings in order, deduplicated against the open keys and stored |
| InsightDetector.FreshIff | roles/palais/files/app/src/lib/server/insights/detector.ts:238 | a detected insight is new exactly when no unacknowledged stored insight has its key |
| InsightDetector.FreshAppend | roles/palais/files/app/src/lib/server/insights/detector.ts:230-238 | the filter keeps detection order across the four detectors |
| InsightDetector.KeyInjective | roles/palais/files/app/src/lib/server/insights/detector.ts:237-238 | keys of different type or title differ, since a type name holds no ':' |
| InsightDetector.RunTwice | roles/palais/files/app/src/lib/server/insights/detector.ts:241-251 | stored rows are unacknowledged, so a second run on the same findings adds nothing |
| InsightDetector.OpenKeysAppend | roles/palais/files/app/src/lib/server/insights/detector.ts:237-251 | storing new insights adds exactly their keys to the open keys |
| InsightDetector.NoDedupWithinRun | roles/palais/files/app/src/lib/server/insights/detector.ts:233-238 | two findings with the same key in one run are both stored, since the open set is read once |
| KaneoStatus.MapStatusAsWrittenLeaks | roles/palais/files/app/scripts/migrate-kaneo.ts:30-41 | as written, a status such as "constructor" reads the object's inherited member instead of falling back to backlog |
| KaneoStatus.MapStatus | roles/palais/files/app/scripts/migrate-kaneo.ts:30-41 | the corrected lookup always returns one of backlog, in-progress, done, review |
| KaneoStatus.MapStatusCases | roles/palais/files/app/scripts/migrate-kaneo.ts:31-40 | backlog/todo give backlog, in-progress/in_progress give in-progress, done/cancelled give done, review gives review, ignoring case; anything else, a missing status included, gives backlog |
| KaneoStatus.MapStatusIgnoresCase | roles/palais/files/app/scripts/migrate-kaneo.ts:40 | a status and its lower case map alike |
| KaneoStatus.MapStatusAgrees | roles/palais/files/app/scripts/migrate-kaneo.ts:30-41 | away from the inherited member names the corrected lookup equals the one written |
| KaneoStatus.DefaultColumnsShape | roles/palais/files/app/scripts/migrate-kaneo.ts:43-50 | six columns at positions 0 to 5 named like the app's default columns, only Done final once isFinal defaults to false |
| KaneoStatus.ColumnOf | roles/palais/files/app/scripts/migrate-kaneo.ts:43-50 | the column found lists the status; none is found only when no column lists it |
| KaneoStatus.StatusesDisjoint | roles/palais/files/app/scripts/migrate-kaneo.ts:43-50 | no status is listed by two columns |
| KaneoStatus.EveryStatusHasColumn | roles/palais/files/app/scripts/migrate-kaneo.ts:40-50 | every mapped status is listed by some column |
| KaneoMigration.Mapped | roles/palais/files/app/scripts/migrate-kaneo.ts:156-157 | a mapping read is kept exactly when the key is present with a non-zero (truthy) value |
| KaneoMigration.ColumnFor | roles/palais/files/app/scripts/migrate-kaneo.ts:168-169 | the column of the task's status when the project's map has it |
| KaneoMigration.MappedStatusListed | roles/palais/files/app/scripts/migrate-kaneo.ts:136-163 | every mapped status is a key of the status-to-column map built for a project |
| KaneoMigration.FindProject | roles/palais/files/app/scripts/migrate-kaneo.ts:100-102 | the first project row with that workspace and slug, or none when no row matches |
| KaneoMigration.FindColumn | roles/palais/files/app/scripts/migrate-kaneo.ts:121-123 | the first column row of that project with that name, or none |
| KaneoMigration.FindTask | roles/palais/files/app/scripts/migrate-kaneo.ts:171-175 | some task row of that project has that title exactly when a row is found, and the row found has both |
| KaneoMigration.FindWorkspace | roles/palais/files/app/scripts/migrate-kaneo.ts:66-68 | the first workspace row with that slug, or none |
| KaneoMigration.MapStatuses | roles/palais/files/app/scripts/migrate-kaneo.ts:136-138 | every status the column lists maps to its id, the other keys kept |
| KaneoMigration.Migration.EnsureWorkspace | roles/palais/files/app/scripts/migrate-kaneo.ts:63-80 | the kaneo-import workspace is reused when it exists, else inserted |
| KaneoMigration.Migration.EnsureColumn | roles/palais/files/app/scripts/migrate-kaneo.ts:121-135 | the project's column with that name is reused, else inserted at its position with isFinal defaulting to false |
| KaneoMigration.Migration.MapColumns | roles/palais/files/app/scripts/migrate-kaneo.ts:119-139 | after the six columns, the project's map covers every listed status; earlier rows are kept |
| KaneoMigration.Migration.MigrateProject | roles/palais/files/app/scripts/migrate-kaneo.ts:94-139 | the project with the slug is reused or inserted (failing only for a name over 200 characters), then its columns are mapped |
| KaneoMigration.Migration.MigrateProjects | roles/palais/files/app/scripts/migrate-kaneo.ts:94-143 | when no insert fails every Kaneo project is mapped; a failure means some name is over 200 characters |
| KaneoMigration.Migration.MigrateTask | roles/palais/files/app/scripts/migrate-kaneo.ts:155-202 | a task of an unmapped project is skipped; when the project has tasks with its title, one of them (any) is reused and counted skipped; otherwise the new row, in the column of its mapped status with the backlog fallback, is appended exactly when the title fits and the priority is one of the enum; created + skipped grows by one, and titles that were unique per project stay so |
| KaneoMigration.Migration.PlaceTask | roles/palais/files/app/scripts/migrate-kaneo.ts:166-196 | for a mapped project: some row with the title is reused, else the row built from the Kaneo task with the given column is appended when the store takes it; no duplicate title is added |
| KaneoMigration.Migration.InsertTask | roles/palais/files/app/scripts/migrate-kaneo.ts:181-196 | the insert appends the row, maps the Kaneo id to it and counts it created; a row whose title the project lacks keeps titles unique |
| KaneoMigration.Migration.MigrateTasks | roles/palais/files/app/scripts/migrate-kaneo.ts:155-202 | every task is counted once as created or skipped; created tasks are appended, earlier rows kept; titles unique per project before stay unique after |
| KaneoMigration.Migration.MigrateComment | roles/palais/files/app/scripts/migrate-kaneo.ts:213-230 | a comment of an unmapped task is skipped, else inserted as a system comment with its content or empty text |
| KaneoMigration.Migration.MigrateComments | roles/palais/files/app/scripts/migrate-kaneo.ts:213-231 | every comment is created or skipped, and each created one is a system comment on a mapped task |
| KaneoMigration.Migration.Run | roles/palais/files/app/scripts/migrate-kaneo.ts:52-243 | the workspace, projects, tasks and comments in order, with the counts above; task titles unique per project before the run stay unique after it |
| McpExecutor.ParseDomain | roles/palais/files/app/src/lib/server/mcp/tools/executor.ts:23-41 | a domain is recognised only for one of the eight names, and each name gives its own domain |
| McpExecutor.ParseDomainName | roles/palais/files/app/src/lib/server/mcp/tools/executor.ts:23-39 | every domain's name parses back to that domain |
| McpExecutor.ExecuteToolCall | roles/palais/files/app/src/lib/server/mcp/tools/executor.ts:10-43 | an accepted name calls its domain's handler with the method and the arguments; any other name raises "Unknown tool: " + name |
| McpExecutor.UnknownToolIff | roles/palais/files/app/src/lib/server/mcp/tools/executor.ts:15-18 | a name is unknown exactly when it has fewer than three dot-separated parts or does not start with "palais" |
| McpExecutor.DispatchRoundTrip | roles/palais/files/app/src/lib/server/mcp/tools/executor.ts:15-21 | an accepted name is exactly "palais." + domain + "." + method |
| McpExecutor.DispatchOf | roles/palais/files/app/src/lib/server/mcp/tools/executor.ts:15-39 | every name palais.domain.method with a dot-free method reaches that handler with that method |
| McpExecutor.NestedMethod | roles/palais/files/app/src/lib/server/mcp/tools/executor.ts:21 | the method keeps its own dots: palais.tasks.a.b calls the tasks handler with a.b |
| McpExecutor.UnknownDomainOf | roles/palais/files/app/src/lib/server/mcp/tools/executor.ts:40-41 | a second part that names no domain raises "Unknown tool domain: " + that part |
| McpRouter.DomainToolDefs | roles/palais/files/app/src/lib/server/mcp/tools/registry.ts:11-22 | each domain lists one definition per method, named after that domain and method |
| McpRouter.RegistryConcat | roles/palais/files/app/src/lib/server/mcp/tools/registry.ts:12-21 | the registry is the eight domain lists spread in order tasks, projects, agents, budget, deliverables, memory, insights, standup |
| McpRouter.ConcatMembers | roles/palais/files/app/src/lib/server/mcp/tools/registry.ts:12-21 | a definition is registered exactly when some domain's list holds it |
| McpRouter.ToolCount | roles/palais/files/app/src/lib/server/mcp/tools/registry.ts:11-22 | twenty tools are registered |
| McpRouter.AdvertisedToolsDispatch | roles/palais/files/app/src/lib/server/mcp/tools/registry.ts:11-22 | every advertised tool name is accepted by the executor for that tool's own domain and method |
| McpRouter.HandleMcpRequest | roles/palais/files/app/src/lib/server/mcp/router.ts:6-72 | every reply is JSON-RPC 2.0 and carries an id whenever the request had one |
| McpRouter.VersionRejected | roles/palais/files/app/src/lib/server/mcp/router.ts:9-15 | a request without jsonrpc "2.0" is refused with -32600 and its id, or null |
| McpRouter.VersionCheckFirst | roles/palais/files/app/src/lib/server/mcp/router.ts:9-15 | no handler can change the reply to a refused request |
| McpRouter.EchoesId | roles/palais/files/app/src/lib/server/mcp/router.ts:17-71 | every reply to an accepted request echoes the request id |
| McpRouter.InitializeReply | roles/palais/files/app/src/lib/server/mcp/router.ts:18-27 | initialize announces protocol 2024-11-05, server palais 1.0.0 and the tools capability |
| McpRouter.ListReply | roles/palais/files/app/src/lib/server/mcp/router.ts:29-34 | tools/list answers with the registry |
| McpRouter.MissingToolName | roles/palais/files/app/src/lib/server/mcp/router.ts:37-46 | a tools/call without a name, or with an empty one, is -32602 "Missing tool name" |
| McpRouter.CallReplyOf | roles/palais/files/app/src/lib/server/mcp/router.ts:36-63 | a named call runs the executor on the name and the arguments or {}: a value becomes one text content item, an Error gives -32603 with its message, anything else thrown gives -32603 "Unknown error" |
| McpRouter.UnknownDomainCall | roles/palais/files/app/src/lib/server/mcp/router.ts:48-62 | a call into an unknown domain is an error reply "Unknown tool domain: ..." |
| McpRouter.UnknownMethod | roles/palais/files/app/src/lib/server/mcp/router.ts:65-70 | any other method is -32601 "Unknown method: " + the method |
| McpRouter.ErrorIff | roles/palais/files/app/src/lib/server/mcp/router.ts:6-72 | the reply is an error exactly when one of the four refusals applies |
| McpRouter.ReservedCodes | roles/palais/files/app/src/lib/server/mcp/types.ts:36-43 | every error code used lies between -32768 and -32000 |
| McpSse.SendSseEvent | roles/palais/files/app/src/lib/server/mcp/sse.ts:34-41 | the controller gets exactly one more frame, for that event and data |
| McpSse.Retained | roles/palais/files/app/src/lib/server/mcp/sse.ts:43-51 | cleanup keeps a subset of the sessions, each unchanged |
| McpSse.SessionStore.CreateSession | roles/palais/files/app/src/lib/server/mcp/sse.ts:20-24 | the fresh id maps to a session with the controller and the creation time, and is returned |
| McpSse.SessionStore.GetSession | roles/palais/files/app/src/lib/server/mcp/sse.ts:26-28 | a session is returned exactly when the id is stored |
| McpSse.SessionStore.RemoveSession | roles/palais/files/app/src/lib/server/mcp/sse.ts:30-32 | the id is gone and every other session remains |
| McpSse.SessionStore.CleanupStaleSessions | roles/palais/files/app/src/lib/server/mcp/sse.ts:43-51 | after the loop the store is exactly the retained sessions |
| McpSse.RetainedIff | roles/palais/files/app/src/lib/server/mcp/sse.ts:47 | a session is deleted exactly when it is more than 3600000 ms old |
| McpSse.HourOldKept | roles/palais/files/app/src/lib/server/mcp/sse.ts:47 | the comparison is strict: a session exactly one hour old is kept |
| McpSse.RetainedIdempotent | roles/palais/files/app/src/lib/server/mcp/sse.ts:43-51 | a second cleanup at the same time deletes nothing |
| McpSse.FrameLines | roles/palais/files/app/src/lib/server/mcp/sse.ts:39 | a frame with no line break in its event or data splits into the event line, the data line and the blank line that ends the event |
| McpMemoryTool.EffectiveLimit | roles/palais/files/app/src/lib/server/mcp/tools/memory.ts:136 | an absent or zero limit becomes 10, any other is kept |
| McpMemoryTool.NodeIdsOf | roles/palais/files/app/src/lib/server/mcp/tools/memory.ts:84 | no more ids than hits |
| McpMemoryTool.NodeIdsOfMembers | roles/palais/files/app/src/lib/server/mcp/tools/memory.ts:84 | an id is listed exactly when some hit's payload carries it as a non-zero node_id |
| McpMemoryTool.NodeIdsNonZero | roles/palais/files/app/src/lib/server/mcp/tools/memory.ts:84 | the filter drops every falsy id |
| McpMemoryTool.SearchQdrant | roles/palais/files/app/src/lib/server/mcp/tools/memory.ts:50-88 | [] when the embedding or the search fails, and never the id 0 |
| McpMemoryTool.TextOnly | roles/palais/files/app/src/lib/server/mcp/tools/memory.ts:159-163 | the full-text rows left after the seen ones, no more than given |
| McpMemoryTool.TextOnlyMembers | roles/palais/files/app/src/lib/server/mcp/tools/memory.ts:159-163 | a full-text row is kept exactly when its id was not seen |
| McpMemoryTool.TextOnlyNothingSeen | roles/palais/files/app/src/lib/server/mcp/tools/memory.ts:159-163 | with nothing seen every full-text row is kept |
| McpMemoryTool.Prefix | roles/palais/files/app/src/lib/server/mcp/tools/memory.ts:165 | the slice is a prefix of at most n rows, the whole list when it is short enough |
| McpMemoryTool.Merge | roles/palais/files/app/src/lib/server/mcp/tools/memory.ts:147-163 | the merge loop gives the vector rows, then the full-text rows whose id no vector row has |
| McpMemoryTool.SearchResult | roles/palais/files/app/src/lib/server/mcp/tools/memory.ts:134-166 | a negative limit makes the full-text query fail; otherwise at most limit rows |
| McpMemoryTool.Search | roles/palais/files/app/src/lib/server/mcp/tools/memory.ts:134-166 | the method returns the search result defined from the embedding, vector search and full-text oracles |
| McpMemoryTool.MergedDistinct | roles/palais/files/app/src/lib/server/mcp/tools/memory.ts:147-163 | with duplicate-free inputs the merge holds no node twice |
| McpMemoryTool.MergedPrefix | roles/palais/files/app/src/lib/server/mcp/tools/memory.ts:165 | the cut merge is a prefix of the vector rows followed by full-text rows none of them matched |
| McpMemoryTool.SearchOrder | roles/palais/files/app/src/lib/server/mcp/tools/memory.ts:134-166 | search returns at most limit rows: the vector-matched table rows first, then only full-text rows none of them matched |
| McpMemoryTool.SearchNoDuplicates | roles/palais/files/app/src/lib/server/mcp/tools/memory.ts:134-166 | no node is returned twice when the ids are unique and the full-text query returns each row once |
| McpMemoryTool.FullTextOnly | roles/palais/files/app/src/lib/server/mcp/tools/memory.ts:150-165 | with no vector ids the search is the full-text rows cut to the limit |
| McpMemoryTool.CamelPayloadsIgnored | roles/palais/files/app/src/lib/server/mcp/tools/memory.ts:84 | hits whose payload carries nodeId rather than node_id give no vector id |
| McpMemoryTool.EntityTypeIgnored | roles/palais/files/app/src/lib/server/mcp/tools/memory.ts:134-166 | the advertised entityType filter changes nothing |
| McpMemoryTool.EdgesOf | roles/palais/files/app/src/lib/server/mcp/tools/memory.ts:176-177 | no more edges than the table holds |
| McpMemoryTool.EdgesOfMembers | roles/palais/files/app/src/lib/server/mcp/tools/memory.ts:176-177 | an edge is selected exactly when the node is its source or its target |
| McpMemoryTool.Recall | roles/palais/files/app/src/lib/server/mcp/tools/memory.ts:168-180 | "Memory node <id> not found" exactly when no node has the id; otherwise that node with its edges |
| McpMemoryTool.RecallEdges | roles/palais/files/app/src/lib/server/mcp/tools/memory.ts:176-179 | a recalled node comes with every edge touching it and no other |
| McpMemoryTool.StoreInsert | roles/palais/files/app/src/lib/server/mcp/tools/memory.ts:183-191 | the insert is by agent, with tags defaulting to [], the content and the summary as given |
| McpMemoryTool.StoreEmbedding | roles/palais/files/app/src/lib/server/mcp/tools/memory.ts:90-127 | with an embedding the point is stored under the fresh id with payload node_id; the node's embedding id is set whenever the PUT got an answer |
| McpMemoryTool.Store | roles/palais/files/app/src/lib/server/mcp/tools/memory.ts:182-199 | the node is inserted, then embedded, and the reply is the row as inserted |
| McpMemoryTool.Handle | roles/palais/files/app/src/lib/server/mcp/tools/memory.ts:129-204 | search and recall change nothing and answer as above; store inserts and embeds; edges are never touched |
| McpProjectsTool.ListFilter | roles/palais/files/app/src/lib/server/mcp/tools/projects.ts:49-53 | the workspace filter applies exactly when the id is truthy |
| McpProjectsTool.CreateWorkspace | roles/palais/files/app/src/lib/server/mcp/tools/projects.ts:60 | a truthy workspace id is kept, anything else becomes 1 |
| McpProjectsTool.ProjectTasks | roles/palais/files/app/src/lib/server/mcp/tools/projects.ts:86-87 | exactly the tasks of the project; an absent id matches none |
| McpProjectsTool.CountStatus | roles/palais/files/app/src/lib/server/mcp/tools/projects.ts:91-92 | a status count never exceeds the number of tasks |
| McpProjectsTool.Assignees | roles/palais/files/app/src/lib/server/mcp/tools/projects.ts:93 | the assignees listed are exactly the non-empty assignee ids of the tasks |
| McpProjectsTool.EntriesOf | roles/palais/files/app/src/lib/server/mcp/tools/projects.ts:99-100 | exactly the time entries of the selected task ids |
| McpProjectsTool.TaskIdSet | roles/palais/files/app/src/lib/server/mcp/tools/projects.ts:96 | exactly the ids of the given tasks |
| McpProjectsTool.CountTwo | roles/palais/files/app/src/lib/server/mcp/tools/projects.ts:91-92 | done and failed counts together never exceed the task count |
| McpProjectsTool.CountPositive | roles/palais/files/app/src/lib/server/mcp/tools/projects.ts:91-92 | a count is positive exactly when some task has the status |
| McpProjectsTool.CostSumAppend | roles/palais/files/app/src/lib/server/mcp/tools/projects.ts:89-90 | the cost sums split over concatenation, so row order does not matter |
| McpProjectsTool.DurationSumAppend | roles/palais/files/app/src/lib/server/mcp/tools/projects.ts:101 | the duration sum splits over concatenation |
| McpProjectsTool.EntriesOfNone | roles/palais/files/app/src/lib/server/mcp/tools/projects.ts:98-102 | no task ids select no entry, so the empty-list guard changes nothing |
| McpProjectsTool.AnalyzeContract | roles/palais/files/app/src/lib/server/mcp/tools/projects.ts:83-114 | the report counts the project's tasks and their done and failed ones, lists each non-empty assignee once, and sums the durations of the project's entries |
| McpProjectsTool.Handle | roles/palais/files/app/src/lib/server/mcp/tools/projects.ts:43-119 | list reads with the filter and changes nothing; create without a name throws; create inserts the project and its six columns; analytics changes nothing |
| McpTasksTool.ParsePriority | roles/palais/files/app/src/lib/server/db/schema.ts:12 | a priority is read only from one of the five enum labels, each giving its own value |
| McpTasksTool.ParsePriorityLabel | roles/palais/files/app/src/lib/server/db/schema.ts:12 | every priority's label reads back to it |
| McpTasksTool.ListLimit | roles/palais/files/app/src/lib/server/mcp/tools/tasks.ts:106 | the limit is 50 unless a truthy one is given |
| McpTasksTool.Matching | roles/palais/files/app/src/lib/server/mcp/tools/tasks.ts:101-104 | exactly the tasks passing the truthy project, status and assignee filters, in table order |
| McpTasksTool.ListContract | roles/palais/files/app/src/lib/server/mcp/tools/tasks.ts:100-113 | list returns at most the limit, each a filtered task, newest update first, and no left-out filtered task is newer than a returned one |
| McpTasksTool.ListIgnoresPriority | roles/palais/files/app/src/lib/server/mcp/tools/tasks.ts:100-113 | the advertised priority filter is never read |
| McpTasksTool.NewTaskDefaults | roles/palais/files/app/src/lib/server/mcp/tools/tasks.ts:115-127 | a created task is the agent's, in backlog, with priority none unless given, and the given fields; an absent or null description, assignee or estimate is stored as NULL |
| McpTasksTool.TaskIndex | roles/palais/files/app/src/lib/server/mcp/tools/tasks.ts:134 | the row with that id, or none when no row has it |
| McpTasksTool.UpdatedFields | roles/palais/files/app/src/lib/server/mcp/tools/tasks.ts:129-135 | an accepted update writes every column key given other than taskId (creator and createdAt included), an explicit null writing NULL to a nullable column, keeps the columns whose keys are absent, and sets updatedAt to the clock |
| McpTasksTool.NullUnassigns | roles/palais/files/app/src/lib/server/mcp/tools/tasks.ts:131-133 | an update whose assigneeAgentId is null un-assigns the task |
| McpTasksTool.UpdateNothing | roles/palais/files/app/src/lib/server/mcp/tools/tasks.ts:131-133 | an update with no column key but the id still moves updatedAt, and only that |
| McpTasksTool.AuthorType | roles/palais/files/app/src/lib/server/mcp/tools/tasks.ts:144 | the author is an agent exactly when the author id is truthy, else the user |
| McpTasksTool.EmptyAuthorIsUser | roles/palais/files/app/src/lib/server/mcp/tools/tasks.ts:144-145 | an empty author id makes a user's comment that still stores the empty id |
| McpTasksTool.EntryTypeOf | roles/palais/files/app/src/lib/server/mcp/tools/tasks.ts:154 | a timer is automatic exactly when an agent id is truthy |
| McpTasksTool.NewEntry | roles/palais/files/app/src/lib/server/mcp/tools/tasks.ts:150-157 | a started timer is running from now, automatic exactly when an agent is given |
| McpTasksTool.Latest | roles/palais/files/app/src/lib/server/mcp/tools/tasks.ts:164-170 | a selected entry with the latest start, or none when no entry is selected |
| McpTasksTool.Stopped | roles/palais/files/app/src/lib/server/mcp/tools/tasks.ts:176-180 | the stopped entry ends now with the whole seconds elapsed, rounded down |
| McpTasksTool.ListValue | roles/palais/files/app/src/lib/server/mcp/tools/tasks.ts:100-113 | list's value is the query's rows, or its error |
| McpTasksTool.TasksDb.Create | roles/palais/files/app/src/lib/server/mcp/tools/tasks.ts:115-127 | an accepted insert appends the new row; a refused one throws and inserts nothing |
| McpTasksTool.TasksDb.Update | roles/palais/files/app/src/lib/server/mcp/tools/tasks.ts:129-138 | a priority or creator outside its enum throws first; an absent, null or unknown id raises "Task <id> not found" (printing undefined or null); a null in a NOT NULL column, a missing reference or an over-long string throws and changes nothing; otherwise that row, and only it, is replaced by its update |
| McpTasksTool.TasksDb.AddComment | roles/palais/files/app/src/lib/server/mcp/tools/tasks.ts:140-148 | an accepted comment is appended; a refused one throws and inserts nothing |
| McpTasksTool.TasksDb.StartTimer | roles/palais/files/app/src/lib/server/mcp/tools/tasks.ts:150-158 | an accepted entry is appended running; a refused one throws and inserts nothing |
| McpTasksTool.TasksDb.StopTimer | roles/palais/files/app/src/lib/server/mcp/tools/tasks.ts:160-184 | the latest selected entry is stopped; with none, or with one already ended, "No running timer found for this task" is raised |
| McpTasksTool.TasksDb.Handle | roles/palais/files/app/src/lib/server/mcp/tools/tasks.ts:95-189 | list changes nothing and returns the filtered rows; create appends the new row or throws; update replaces exactly the row it reaches, or changes no task and returns no row; an unknown method raises and changes nothing |
| McpTasksTool.StopTwiceRaises | roles/palais/files/app/src/lib/server/mcp/tools/tasks.ts:172-174 | a timer just stopped cannot be stopped again |
| MemoryEnrich.KeyTargetOfNodeKey | roles/palais/files/app/src/lib/server/memory/enrich.ts:23 | a "node-<id>" key parses back to that id |
| MemoryEnrich.KeyTargetOfDigitPrefix | roles/palais/files/app/src/lib/server/memory/enrich.ts:23 | a key without "node-" that starts with decimal digits names the node those digits give |
| MemoryEnrich.UuidKeyNamesUnrelatedNode | roles/palais/files/app/src/lib/server/memory/enrich.ts:23 | a random UUID key starting with 7 names node 7, unrelated to the point |
| MemoryEnrich.Round2Close | roles/palais/files/app/src/lib/server/memory/enrich.ts:47 | the weight is a whole number of hundredths within half a hundredth of the score |
| MemoryEnrich.ParsedAt | roles/palais/files/app/src/lib/server/memory/enrich.ts:22-23 | parsing keeps one entry per hit, in order, with its score |
| MemoryEnrich.EdgeRows | roles/palais/files/app/src/lib/server/memory/enrich.ts:43-48 | one row per planned edge |
| MemoryEnrich.EdgeRowsAt | roles/palais/files/app/src/lib/server/memory/enrich.ts:43-48 | row k is the k-th planned related_to edge from the node, with the next serial id |
| MemoryEnrich.PlanLength | roles/palais/files/app/src/lib/server/memory/enrich.ts:22-49 | at most one edge per hit |
| MemoryEnrich.PlanTargetsValid | roles/palais/files/app/src/lib/server/memory/enrich.ts:24-41 | every planned edge avoids a self-loop and points to an existing node not linked before |
| MemoryEnrich.PlanTargetsDistinct | roles/palais/files/app/src/lib/server/memory/enrich.ts:33-41 | hits naming the same node yield one edge |
| MemoryEnrich.PlanFromHits | roles/palais/files/app/src/lib/server/memory/enrich.ts:22-48 | every planned edge comes from a hit naming its target and carries that hit's rounded score |
| MemoryEnrich.PlanComplete | roles/palais/files/app/src/lib/server/memory/enrich.ts:22-48 | every hit naming an existing other node not yet linked yields an edge to it |
| MemoryEnrich.PlanIdempotent | roles/palais/files/app/src/lib/server/memory/enrich.ts:33-41 | once the planned targets are linked, planning again over the same hits gives nothing |
| MemoryEnrich.LinkedAfterRows | roles/palais/files/app/src/lib/server/memory/enrich.ts:43-48 | the added rows extend the node's linked set by exactly the planned targets |
| MemoryEnrich.EnrichTwiceAddsNothing | roles/palais/files/app/src/lib/server/memory/enrich.ts:15-50 | a second run on the same tables and index adds no edge |
| MemoryEnrich.AtMostSixEdges | roles/palais/files/app/src/lib/server/memory/enrich.ts:7-20 | with a search that keeps its limit, one call adds at most six edges |
| MemoryEnrich.EdgeExists | roles/palais/files/app/src/lib/server/memory/enrich.ts:33-41 | an edge counts as existing exactly when the node already links to the target, whatever its relation |
| MemoryEnrich.LinkHit | roles/palais/files/app/src/lib/server/memory/enrich.ts:23-48 | one pass: a hit naming a candidate appends its edge; any other hit changes nothing |
| MemoryEnrich.LinkAll | roles/palais/files/app/src/lib/server/memory/enrich.ts:22-49 | the loop appends exactly the planned edges, or raises on the first edge when the source node is missing |
| MemoryEnrich.CreateRetroactiveEdges | roles/palais/files/app/src/lib/server/memory/enrich.ts:15-50 | the search for 6 hits above 0.8, then exactly the planned edges |
| MemoryEnrich.EnrichIgnoringErrors | roles/palais/files/app/src/lib/server/memory/ingest.ts:65 | with failures dropped, only related_to edges from the node are appended and nodes are unchanged |
| MemoryEnrich.KeyNode | roles/palais/files/app/src/lib/server/memory/ingest.ts:63-65 | after an accepted upsert the new row's embedding id becomes "node-<id>", then only related_to edges from it are added |
| MemoryIngest.Kept | roles/palais/files/app/src/lib/server/memory/ingest.ts:38 | the filter keeps at most the given parts |
| MemoryIngest.ContentLines | roles/palais/files/app/src/lib/server/memory/ingest.ts:32-38 | the content is the action and entity lines, then agent, context (first 500 characters) and before (first 200) lines, each only when non-empty |
| MemoryIngest.SummaryNamesActor | roles/palais/files/app/src/lib/server/memory/ingest.ts:40 | the summary ends with " by " + actor exactly when the actor is non-empty |
| MemoryIngest.IngestAcceptedIff | roles/palais/files/app/src/lib/server/memory/ingest.ts:42-50 | the insert is accepted exactly when the entity type is a label of the store's enum and the id fits its column |
| MemoryIngest.ProjectEventsRejected | roles/palais/files/app/src/lib/server/memory/ingest.ts:46 | an event on a project or a mission stores nothing |
| MemoryIngest.IngestedRow | roles/palais/files/app/src/lib/server/memory/ingest.ts:42-50 | the stored row is episodic, with that content and summary, tags [action, entityType], creator system, and an entity id that reads back as the event's id |
| MemoryIngest.Ingest | roles/palais/files/app/src/lib/server/memory/ingest.ts:21-70 | an unimportant action or a refused insert leaves the store as it was; otherwise the node is inserted and, with an embedding, indexed as "node-<id>" and enriched, failures swallowed |
| MemoryExtract.Slots | roles/palais/files/app/src/lib/server/memory/extract.ts:35-65 | the loop runs exactly when the reply is OK and its cleaned, trimmed content parses as an array, over at most its first five elements |
| MemoryExtract.SemanticRow | roles/palais/files/app/src/lib/server/memory/extract.ts:68-96 | a created node is semantic, with the triplet text as content and summary, tags [relation], creator agent, and an embedding id exactly when it was indexed |
| MemoryExtract.SemanticRows | roles/palais/files/app/src/lib/server/memory/extract.ts:65-99 | one row per created node |
| MemoryExtract.SemanticRowsAt | roles/palais/files/app/src/lib/server/memory/extract.ts:70-76 | row k is the k-th created node, with id firstId + k |
| MemoryExtract.RunLength | roles/palais/files/app/src/lib/server/memory/extract.ts:65 | a run makes at most one node per visited element |
| MemoryExtract.AtMostFiveNodes | roles/palais/files/app/src/lib/server/memory/extract.ts:65 | a run makes at most five nodes |
| MemoryExtract.Contents | roles/palais/files/app/src/lib/server/memory/extract.ts:68 | the contents of the created nodes, in order |
| MemoryExtract.RunOfWellFormed | roles/palais/files/app/src/lib/server/memory/extract.ts:65-99 | without null elements and with an index that accepts every upsert, nothing is raised and each complete triplet yields one node, in order |
| MemoryExtract.NonStringSubject | roles/palais/files/app/src/lib/server/memory/extract.ts:66-68 | a truthy non-string subject makes a node whose content starts with its template-literal text; a falsy one skips the element |
| MemoryExtract.CapBeforeFilter | roles/palais/files/app/src/lib/server/memory/extract.ts:65-66 | the cap comes before the filter: one incomplete element among six leaves only four nodes |
| MemoryExtract.RunVectors | roles/palais/files/app/src/lib/server/memory/extract.ts:87-98 | a created node is indexed with its own embedding, and unindexed only when that failed or the upsert threw |
| MemoryExtract.FencedReply | roles/palais/files/app/src/lib/server/memory/extract.ts:55-58 | a reply fenced as a json block around a body without backquotes is read as the trimmed body |
| MemoryExtract.MakeNode | roles/palais/files/app/src/lib/server/memory/extract.ts:70-84 | the semantic node is appended, then its learned_from edge from the episodic node with weight 0.9 |
| MemoryExtract.ExtractOne | roles/palais/files/app/src/lib/server/memory/extract.ts:66-98 | one element: skipped when a subject, relation or object is absent or falsy by JavaScript truthiness (a non-string value counts when truthy and is written as its template-literal text); else the node and its edge, then with an embedding the upsert, the embedding id and enrichment |
| MemoryExtract.NextDone | roles/palais/files/app/src/lib/server/memory/extract.ts:65-99 | the done list grows by at most one node per element |
| MemoryExtract.VisitSlot | roles/palais/files/app/src/lib/server/memory/extract.ts:65-99 | one pass of the loop keeps the run's invariant |
| MemoryExtract.RunSlots | roles/palais/files/app/src/lib/server/memory/extract.ts:65-99 | the loop's nodes, edges, points and raised flag are those of the run's trace |
| MemoryExtract.TraceAdvance | roles/palais/files/app/src/lib/server/memory/extract.ts:65-99 | the run's trace after one more element follows that element's outcome |
| MemoryExtract.ExtractTriplets | roles/palais/files/app/src/lib/server/memory/extract.ts:29-100 | nothing happens unless the node exists, is episodic and the reply reads as an array; then the run's trace gives the nodes made and whether an exception escapes |
| MemorySchema.ParseNodeType | roles/palais/files/app/src/lib/server/db/schema.ts:15 | a node type is read only from one of its labels, each giving its own value |
| MemorySchema.ParseEntityType | roles/palais/files/app/src/lib/server/db/schema.ts:16-18 | an entity type is read only from one of its six labels |
| MemorySchema.ParseCreator | roles/palais/files/app/src/lib/server/db/schema.ts:13 | a creator is read only from one of user, agent, system |
| MemorySchema.NodeTypeLabels | roles/palais/files/app/src/lib/server/db/schema.ts:15 | a node type is accepted exactly when it is episodic, semantic or procedural |
| MemorySchema.RelationLabels | roles/palais/files/app/src/lib/server/db/schema.ts:19-21 | an edge relation is one of the five labels |
| MemorySchema.NodeRow | roles/palais/files/app/src/lib/server/db/schema.ts:94-108 | the created row has the next id, the insert time, no embedding id, the given type and content, tags defaulting to [] and creator to system |
| MemorySchema.NodeDefaults | roles/palais/files/app/src/lib/server/db/schema.ts:100-107 | a node inserted with only type and content gets tags [] and creator system |
| MemorySchema.FindNode | roles/palais/files/app/src/lib/server/db/schema.ts:95 | a node is found exactly when one has the id, and it is that row |
| MemorySchema.RowsWithIds | roles/palais/files/app/src/routes/api/v1/memory/search/+server.ts:35-37 | no more rows than the table holds |
| MemorySchema.RowsWithIdsMembers | roles/palais/files/app/src/routes/api/v1/memory/search/+server.ts:35-37 | a row is fetched exactly when its id is asked for |
| MemorySchema.RowsWithIdsLookup | roles/palais/files/app/src/routes/api/v1/memory/search/+server.ts:40 | looking up an asked-for id among the fetched rows finds what the table holds |
| MemorySchema.EdgesAllowLoopsAndDuplicates | roles/palais/files/app/src/lib/server/db/schema.ts:110-117 | a self-loop and a second edge between the same nodes are both accepted |
| MemorySchema.WithEmbeddingId | roles/palais/files/app/src/routes/api/v1/memory/nodes/+server.ts:51-53 | the update changes the embedding id of the rows with that id and nothing else |
| MemorySchema.WithEmbeddingIdKeepsIds | roles/palais/files/app/src/routes/api/v1/memory/nodes/+server.ts:51-53 | the update keeps the set of ids |
| MemorySchema.WithEmbeddingIdOfLast | roles/palais/files/app/src/routes/api/v1/memory/nodes/+server.ts:51-53 | with unique ids, the update of the row just appended touches that row only |
| MemorySchema.MemoryDb.InsertNode | roles/palais/files/app/src/lib/server/db/schema.ts:94-108 | the insert succeeds exactly when the values are accepted, appending the defaulted row; otherwise nothing changes |
| MemorySchema.MemoryDb.InsertEdge | roles/palais/files/app/src/lib/server/db/schema.ts:110-117 | an edge insert succeeds exactly when both ends exist, with weight defaulting to 0.5; no uniqueness or self-loop check |
| MemorySchema.MemoryDb.SetEmbeddingId | roles/palais/files/app/src/routes/api/v1/memory/nodes/+server.ts:51-53 | the rows become the table with the embedding id set |
| MemoryNodesRoute.CreateInsert | roles/palais/files/app/src/routes/api/v1/memory/nodes/+server.ts:24-33 | absent optional fields become null, tags default to [] and the creator to system |
| MemoryNodesRoute.EmbedText | roles/palais/files/app/src/routes/api/v1/memory/nodes/+server.ts:36 | the summary is embedded when present, even empty; otherwise the content |
| MemoryNodesRoute.CreateDefaults | roles/palais/files/app/src/routes/api/v1/memory/nodes/+server.ts:24-33 | a body with only type and content is stored with no summary, no entity, tags [] and creator system |
| MemoryNodesRoute.Create | roles/palais/files/app/src/routes/api/v1/memory/nodes/+server.ts:15-60 | 400 exactly when type or content is missing; otherwise the insert, and with an embedding the "node-<id>" point, the embedding id and enrichment; the 201 reply carries embeddingId "node-<id>" even when nothing was indexed |
| MemoryNodesRoute.Limit | roles/palais/files/app/src/routes/api/v1/memory/nodes/+server.ts:67 | an absent limit is 50 and a parsed one is at most 200 |
| MemoryNodesRoute.OfType | roles/palais/files/app/src/routes/api/v1/memory/nodes/+server.ts:72 | the type filter keeps at most the fetched rows |
| MemoryNodesRoute.OfTypeMembers | roles/palais/files/app/src/routes/api/v1/memory/nodes/+server.ts:72 | a row is kept exactly when its type has that label |
| MemoryNodesRoute.ListSpec | roles/palais/files/app/src/routes/api/v1/memory/nodes/+server.ts:66-75 | with a type, at most min(limit, 200) nodes, exactly those of the newest window with that type |
| MemoryNodesRoute.ListWindow | roles/palais/files/app/src/routes/api/v1/memory/nodes/+server.ts:66-75 | without a type the whole newest window, newest first |
| MemorySearchRoute.HitIds | roles/palais/files/app/src/routes/api/v1/memory/search/+server.ts:34 | the parsed hit keys, NaN dropped, no more than the hits |
| MemorySearchRoute.HitIdsHas | roles/palais/files/app/src/routes/api/v1/memory/search/+server.ts:34 | every parsed key is asked for |
| MemorySearchRoute.Resolve | roles/palais/files/app/src/routes/api/v1/memory/search/+server.ts:41-48 | one entry per hit whose key names a fetched row, no more than the hits |
| MemorySearchRoute.ResolveMembers | roles/palais/files/app/src/routes/api/v1/memory/search/+server.ts:41-48 | an entry is returned exactly when some hit names that fetched row, with that hit's score |
| MemorySearchRoute.Search | roles/palais/files/app/src/routes/api/v1/memory/search/+server.ts:14-52 | 400 exactly for a missing or empty query, 503 exactly when the embedding fails, and found results sorted by descending score |
| MemorySearchRoute.SearchResults | roles/palais/files/app/src/routes/api/v1/memory/search/+server.ts:29-51 | with hits, the results are sorted by score, no more than the hits, and exactly the table's nodes some hit names, with that hit's score |
| MemorySearchRoute.NamedByRows | roles/palais/files/app/src/routes/api/v1/memory/search/+server.ts:34-41 | a hit names a fetched row exactly when it names a table node |
| MemorySearchRoute.SearchBounded | roles/palais/files/app/src/routes/api/v1/memory/search/+server.ts:29 | with an index that keeps its limit and threshold, at most topK results, each scoring at least the threshold |
| MemorySearchRoute.DuplicateHitsKept | roles/palais/files/app/src/routes/api/v1/memory/search/+server.ts:41-48 | two hits naming the same node give two entries |
| PlaneChunker.Strip | scripts/index-plane-docs.py:181 | the stripped chunk is a piece of the text with no white space at either end |
| PlaneChunker.PySlice | scripts/index-plane-docs.py:169 | a slice clips out-of-range ends and is empty for a reversed range |
| PlaneChunker.LastPeriodSpaceIsLast | scripts/index-plane-docs.py:173 | rfind(". ") finds the last occurrence, or -1 when there is none |
| PlaneChunker.LastNewlineIsLast | scripts/index-plane-docs.py:174 | rfind of a newline finds the last one, or -1 when there is none |
| PlaneChunker.BreakPointIsLastBoundary | scripts/index-plane-docs.py:173-175 | the break point is the last ". " or newline of the chunk, or -1 |
| PlaneChunker.WindowEnd | scripts/index-plane-docs.py:168-179 | a window ends at start + chunk_size, or just after a boundary past the middle |
| PlaneChunker.WindowsShape | scripts/index-plane-docs.py:164-183 | each window is non-empty, starts inside the text and spans at most chunk_size characters |
| PlaneChunker.WindowsNext | scripts/index-plane-docs.py:182 | each later window starts overlap characters before the previous one's end, later than it |
| PlaneChunker.WindowEndCut | scripts/index-plane-docs.py:172-179 | a window is cut short only when the text goes on past it, just after the last boundary of its span, and only when that boundary lies past the middle |
| PlaneChunker.WindowAfterEndInside | scripts/index-plane-docs.py:167-182 | the window after one reaching the end of the text lies inside it, so the last chunk can repeat the end of the one before |
| PlaneChunker.ChunksShape | scripts/index-plane-docs.py:159-184 | text no longer than chunk_size is one unstripped chunk; longer text gives stripped windows of at most chunk_size characters, the first starting at 0 |
| PlaneChunker.ChunksNotEmpty | scripts/index-plane-docs.py:159-184 | every text, the empty one included, gives at least one chunk |
| PlaneChunker.DefaultsProgress | scripts/index-plane-docs.py:155-182 | the defaults 1000 and 200 make start strictly increase |
| PlaneChunker.PageChunksShape | scripts/index-plane-docs.py:190-206 | a page's records carry its url, title and time, are numbered 0 to n-1 with total n, and hold its chunks in order |
| PlaneChunker.AllChunksAppend | scripts/index-plane-docs.py:186-209 | the records of two runs of pages are those of the first, then those of the second |
| PlaneChunker.AllChunksAtLeastPages | scripts/index-plane-docs.py:190-206 | every page contributes at least one record |
| PlaneChunker.DocumentChunker.ChunkText | scripts/index-plane-docs.py:159-184 | the loop returns the stripped text of every window |
| PlaneChunker.DocumentChunker.ChunkWindows | scripts/index-plane-docs.py:164-184 | the while loop appends the stripped text of every window, in order |
| PlaneChunker.DocumentChunker.Step | scripts/index-plane-docs.py:167-182 | one pass appends the next window's stripped text and moves start strictly forward, to end - overlap |
| PlaneChunker.IdText | scripts/index-plane-docs.py:194-196 | the hashed id string is the page url, then "::", then the chunk index |
| PlaneChunker.DocumentChunker.ChunkPages | scripts/index-plane-docs.py:186-209 | the records of every page in order |
| PlaneChunker.DocumentChunker.PageRecords | scripts/index-plane-docs.py:193-206 | one record per chunk of the page |
| PlaneScraper.Links | scripts/index-plane-docs.py:116-120 | the kept anchors are same-domain absolute links without '#', in document order |
| PlaneScraper.PageOf | scripts/index-plane-docs.py:70-128 | a fetched page with main content becomes a page record with its url, title, text and links |
| PlaneScraper.PlaneDocsScraper.ScrapePage | scripts/index-plane-docs.py:70-128 | a visited URL or a spent budget fetches nothing; otherwise the URL is marked visited before the fetch, so a failure is never retried |
| PlaneScraper.PlaneDocsScraper.ScrapeAll | scripts/index-plane-docs.py:130-149 | each URL is fetched at most once and never more than max_pages; pages are only appended, every kept page was fetched, and no followed link has a fragment |
| PlaneScraper.PlaneDocsScraper.Visit | scripts/index-plane-docs.py:134-146 | one round pops the queue's head and scrapes it unless visited, keeping the crawl invariant |
| PlaneScraper.PlaneDocsScraper.AppendPage | scripts/index-plane-docs.py:142 | the fetched page is appended |
| PlaneScraper.PlaneDocsScraper.Enqueue | scripts/index-plane-docs.py:144-146 | the page's unvisited links are appended to the queue in order |
| Projects.DefaultColumnsShape | roles/palais/files/app/src/routes/api/v1/projects/+server.ts:29-37 | a created project gets exactly six columns, Backlog to Done, at positions 0 to 5, all of that project, and only Done is final |
| Projects.DefaultColumnsAt | roles/palais/files/app/src/routes/api/v1/projects/+server.ts:30-36 | column i is the i-th default, with the i-th next serial id |
| Projects.SlugFits | roles/palais/files/app/src/lib/server/db/schema.ts:185-189 | a project insert is accepted exactly when the workspace exists and the name fits 200 characters; the slug never makes it fail |
| Projects.InWorkspace | roles/palais/files/app/src/lib/server/db/schema.ts:187 | the rows of the workspace when one is given, else all rows |
| Projects.ListProjectsContract | roles/palais/files/app/src/routes/api/v1/projects/+server.ts:7 | the listing holds the rows of the workspace, each as often as in the table, least recently updated first |
| Projects.ListAllIsPermutation | roles/palais/files/app/src/routes/api/v1/projects/+server.ts:7 | with no workspace the listing is the whole table, reordered |
| Projects.AppendColumn | roles/palais/files/app/src/lib/server/db/schema.ts:196-201 | a column with the next serial id, of an existing project, keeps the table valid |
| Projects.ProjectsDb.InsertProject | roles/palais/files/app/src/lib/server/db/schema.ts:185-194 | the project row is appended when accepted; otherwise nothing is inserted |
| Projects.ProjectsDb.AddDefaultColumns | roles/palais/files/app/src/routes/api/v1/projects/+server.ts:29-37 | the loop appends the six default columns with the next six ids |
| Projects.ProjectsDb.CreateWithColumns | roles/palais/files/app/src/routes/api/v1/projects/+server.ts:21-37 | a project with its six default columns, or nothing at all when the project row is refused |
| ProjectsRoute.Get | roles/palais/files/app/src/routes/api/v1/projects/+server.ts:6-9 | GET returns the whole table, least recently updated first |
| ProjectsRoute.Post | roles/palais/files/app/src/routes/api/v1/projects/+server.ts:11-40 | 400 without name or workspace; a refused insert throws; otherwise 201 with the project and its six columns |
| Slug.CollapseRuns | roles/palais/files/app/src/routes/api/v1/projects/+server.ts:19 | the replacement never lengthens the text |
| Slug.CollapseShape | roles/palais/files/app/src/routes/api/v1/projects/+server.ts:19 | the replacement leaves slug characters and single dashes, is empty exactly for empty text, and starts with a dash exactly where the text began outside [a-z0-9] |
| Slug.CollapseLast | roles/palais/files/app/src/routes/api/v1/projects/+server.ts:19 | a trailing dash is left exactly where the text ended outside [a-z0-9] |
| Slug.CollapseSlugChars | roles/palais/files/app/src/routes/api/v1/projects/+server.ts:19 | the replacement keeps the slug characters in order |
| Slug.SlugShape | roles/palais/files/app/src/routes/api/v1/projects/+server.ts:19 | a slug uses only [a-z0-9] and single inner dashes, keeps the lower-cased letters and digits in order, and is no longer than the name |
| Slug.SlugIdempotent | roles/palais/files/app/src/routes/api/v1/projects/+server.ts:19 | making a slug twice changes nothing |
| Slug.KaneoSlug | roles/palais/files/app/scripts/migrate-kaneo.ts:21-27 | the migration's slug is at most 100 characters |
| Slug.KaneoSlugShape | roles/palais/files/app/scripts/migrate-kaneo.ts:21-27 | a migration slug uses only [a-z0-9] and single dashes and never starts with a dash |
| Slug.KaneoSlugMayEndInDash | roles/palais/files/app/scripts/migrate-kaneo.ts:26 | cutting at 100 characters can leave a trailing dash |
| RexSections.IsHeadingStartsWith | roles/palais/files/app/scripts/seed-memory-rex.ts:80 | a heading line is one starting with "## " or "### " |
| RexSections.HeadingTitle | roles/palais/files/app/scripts/seed-memory-rex.ts:93 | the title is a proper suffix of the heading line and does not start with white space |
| RexSections.HeadingTitleOf | roles/palais/files/app/scripts/seed-memory-rex.ts:93 | the title of "## " + t or "### " + t is t without its leading white space |
| RexSections.OtherHashesAreContent | roles/palais/files/app/scripts/seed-memory-rex.ts:80 | a line opening with one hash, or with four, is content |
| RexSections.RunEnd | roles/palais/files/app/scripts/seed-memory-rex.ts:85 | the end of the run of matching characters from i |
| RexSections.MatchAtIsRegex | roles/palais/files/app/scripts/seed-memory-rex.ts:85 | the match test agrees with the pattern's definition at every position |
| RexSections.FirstMatch | roles/palais/files/app/scripts/seed-memory-rex.ts:85 | the leftmost position where the pattern matches |
| RexSections.Capture | roles/palais/files/app/scripts/seed-memory-rex.ts:85 | the capture starts with a word character and holds only word characters and dashes |
| RexSections.ServiceShape | roles/palais/files/app/scripts/seed-memory-rex.ts:85-89 | the service is "general" exactly when the title has no match, else the lower-cased capture of the leftmost match |
| RexSections.BodyLength | roles/palais/files/app/scripts/seed-memory-rex.ts:79-97 | the lines before the first heading |
| RexSections.SegmentsRoundTrip | roles/palais/files/app/scripts/seed-memory-rex.ts:79-98 | cutting at the headings loses no line and reorders none |
| RexSections.SegmentsWellFormed | roles/palais/files/app/scripts/seed-memory-rex.ts:79-98 | every body is heading-free and every segment after the first is opened by a heading |
| RexSections.ParseSections | roles/palais/files/app/scripts/seed-memory-rex.ts:73-113 | the loop returns the sections of the document |
| RexSections.ParseLines | roles/palais/files/app/scripts/seed-memory-rex.ts:79-110 | the loop over the lines gives the sections of the segments |
| RexSections.PreambleDropped | roles/palais/files/app/scripts/seed-memory-rex.ts:81 | lines before the first heading belong to no section |
| RexSections.NoHeadingNoSection | roles/palais/files/app/scripts/seed-memory-rex.ts:79-110 | a document without headings has no section |
| RexSections.HeadingOpensSection | roles/palais/files/app/scripts/seed-memory-rex.ts:93-110 | a heading opens a section of the lines after it, titled by the heading's text |
| RexSections.Filtered | roles/palais/files/app/scripts/seed-memory-rex.ts:160-162 | exactly the sections whose title holds no "ARCHIVÉ" and does not start with "99.", in order |
| RexSections.Payload | roles/palais/files/app/scripts/seed-memory-rex.ts:167-174 | a posted node carries at most the first 2000 characters of the content, the title as summary and tags troubleshooting and the service |
| RexSections.Payloads | roles/palais/files/app/scripts/seed-memory-rex.ts:166-176 | one node per active section, in document order |
| RexSections.PayloadsContract | roles/palais/files/app/scripts/seed-memory-rex.ts:160-176 | a section is posted exactly when it is active, with content cut to 2000 characters |
| Standup.Round3 | roles/palais/files/app/src/lib/server/standup/generate.ts:112-113 | rounding to thousandths moves the value by at most half a thousandth |
| Standup.CompletedOf | roles/palais/files/app/src/lib/server/standup/generate.ts:102-106 | one completed entry per row, agent defaulting to "unassigned" |
| Standup.FailedOf | roles/palais/files/app/src/lib/server/standup/generate.ts:107-111 | one failed entry per row, agent defaulting to "unassigned", reason always null |
| Standup.ActiveOf | roles/palais/files/app/src/lib/server/standup/generate.ts:77-87 | at most 10 insights, none of type standup |
| Standup.OpenInsights | roles/palais/files/app/src/lib/server/standup/generate.ts:82-85 | exactly the unacknowledged insights other than standup ones |
| Standup.GatherStandupData | roles/palais/files/app/src/lib/server/standup/generate.ts:19-119 | the standup data from the queried rows, with the detector's spend and the remaining budget; the blocked count is always 0, no failed task carries a reason, at most 10 insights |
| Standup.OverspentIsNegative | roles/palais/files/app/src/lib/server/standup/generate.ts:113 | an overspent day reports a negative remainder |
| Standup.MapLines | roles/palais/files/app/src/lib/server/standup/generate.ts:202-204 | the text of each element, in order |
| Standup.BuildStandupPrompt | roles/palais/files/app/src/lib/server/standup/generate.ts:196-239 | the prompt is its lines joined by newlines |
| Standup.PushAll | roles/palais/files/app/src/lib/server/standup/generate.ts:202-204 | the loop appends the text of each element |
| Standup.PromptLineCount | roles/palais/files/app/src/lib/server/standup/generate.ts:196-239 | 16 lines plus one per completed task, failed task and agent, plus the insight section |
| Standup.AnomalyLines | roles/palais/files/app/src/lib/server/standup/generate.ts:224-229 | the anomalies section is empty exactly when no insight is active |
| Standup.AnomaliesThenInstructions | roles/palais/files/app/src/lib/server/standup/generate.ts:224-236 | after the agents come the anomalies section, then the instructions |
| Standup.PromptLimitFixed | roles/palais/files/app/src/lib/server/standup/generate.ts:213 | the budget line always names a $5.00 limit, whatever the daily limit |
| Standup.ZeroCostHidden | roles/palais/files/app/src/lib/server/standup/generate.ts:203 | a zero cost is falsy: that line shows no cost |
| Standup.BuildFallbackSummary | roles/palais/files/app/src/lib/server/standup/generate.ts:241-250 | the fallback is its lines joined by spaces |
| Standup.FallbackShape | roles/palais/files/app/src/lib/server/standup/generate.ts:241-250 | three fixed sentences, and a fourth exactly when insights are active |
| Standup.Summary | roles/palais/files/app/src/lib/server/standup/generate.ts:129-159 | the reply's content when the call succeeded with content, else the fallback |
| Standup.SuggestActions | roles/palais/files/app/src/lib/server/standup/generate.ts:161-183 | the actions pushed in the order of the three checks |
| Standup.CountCritical | roles/palais/files/app/src/lib/server/standup/generate.ts:177 | the count is positive exactly when some active insight is critical |
| Standup.SuggestionsIff | roles/palais/files/app/src/lib/server/standup/generate.ts:163-183 | eco mode exactly when less than $1.50 remains, failed tasks exactly when one failed, critical insights exactly when one is critical |
| Standup.SummaryOrFallback | roles/palais/files/app/src/lib/server/standup/generate.ts:151-158 | the reply's content, or the fallback built only when needed |
| Standup.GenerateStandupBriefing | roles/palais/files/app/src/lib/server/standup/generate.ts:121-194 | the title names the date, the description is the summary, the actions are the suggested ones |
| VectorIndex.NodeKey | roles/palais/files/app/src/routes/api/v1/memory/nodes/+server.ts:37 | the node key starts with "node-" and has more after it |
| VectorIndex.Index.Upsert | roles/palais/files/app/src/lib/server/memory/qdrant.ts:61-76 | an accepted upsert sets the point under the key; a refused one changes nothing |
| RenderQueue.VideoUrl | roles/remotion/files/server/render-queue.ts:105 | the URL of a finished render ends in the job id and ".mp4" |
| RenderQueue.Ended | roles/remotion/files/server/render-queue.ts:103-114 | a render's end keeps the job data, is completed exactly when the render succeeded, with the job's URL, and otherwise failed with the error's message |
| RenderQueue.Queue.constructor | roles/remotion/files/server/render-queue.ts:48-49 | a new queue holds no jobs and a resolved chain |
| RenderQueue.Queue.CreateJob | roles/remotion/files/server/render-queue.ts:129-133 | the fresh id is returned, its job stored as queued with the data and appended to the chain |
| RenderQueue.Queue.QueueRender | roles/remotion/files/server/render-queue.ts:118-127 | the job is stored as queued and its step appended to the chain; nothing else changes |
| RenderQueue.Queue.Cancel | roles/remotion/files/server/render-queue.ts:122-124 | a queued job is removed from the map; an in-progress one has its cancel signal fired and stays |
| RenderQueue.Queue.RunNext | roles/remotion/files/server/render-queue.ts:51-62 | on a rejected chain the step is skipped; a job missing from the map throws and rejects the chain; otherwise the job goes in progress at 0 |
| RenderQueue.Queue.ReportProgress | roles/remotion/files/server/render-queue.ts:91-98 | the running job stays in progress with the reported progress |
| RenderQueue.Queue.Finish | roles/remotion/files/server/render-queue.ts:103-115 | the running job ends completed or failed and the chain goes on |
| RenderQueue.CancelledJobHaltsChain | roles/remotion/files/server/render-queue.ts:52-126 | cancelling a queued job rejects the chain at its step, and every job queued after it stays queued while the chain runs on: no later step starts it |
| RenderRoutes.RequestedData | roles/remotion/files/server/index.ts:32-36 | an empty or missing composition id becomes "HelloWorld", missing props become {} |
| RenderRoutes.Health | roles/remotion/files/server/index.ts:26-28 | 200 with status ok and the number of jobs in the map |
| RenderRoutes.GetJob | roles/remotion/files/server/index.ts:41-49 | 404 "Job not found" for an unknown id, else 200 with the job |
| RenderRoutes.PostRenders | roles/remotion/files/server/index.ts:31-38 | the reply carries the new id, whose job is queued with the defaulted data |
| RenderRoutes.DeleteJob | roles/remotion/files/server/index.ts:52-65 | 404 for an unknown job, 400 for one neither queued nor in progress, else the job is cancelled and the reply says so |
| RenderServer.OrDefault | roles/remotion/files/src/server.js:52-61 | the value when it is a non-empty string, else the default |
| RenderServer.Defaults | roles/remotion/files/src/server.js:52-61 | a request without the fields renders ProductDemo in h264 to an mp4 file |
| RenderServer.AuthorizedCases | roles/remotion/files/src/server.js:21-26 | with no token anything passes; a configured token passes as "Bearer <token>" and a missing header is refused |
| RenderServer.BareTokenPasses | roles/remotion/files/src/server.js:23-24 | the bare token, without "Bearer ", passes too |
| RenderServer.Server.constructor | roles/remotion/files/src/server.js:14-18 | a new server holds no renders |
| RenderServer.Server.Health | roles/remotion/files/src/server.js:29-31 | 200 with status ok and the number of renders |
| RenderServer.Server.PostRender | roles/remotion/files/src/server.js:34-87 | 401 when unauthorized and nothing changes; otherwise the new entry is already rendering at progress 0 while the reply says pending |
| RenderServer.Server.Progress | roles/remotion/files/src/server.js:64-66 | only the entry's progress changes |
| RenderServer.Server.Complete | roles/remotion/files/src/server.js:69-75 | the entry becomes done at progress 1 with its output path and completion time |
| RenderServer.Server.Fail | roles/remotion/files/src/server.js:76-82 | the entry becomes error with the message and the time, keeping its other fields |
| RenderServer.Server.GetStatus | roles/remotion/files/src/server.js:90-94 | 401 when unauthorized, 404 for an unknown id, else 200 with the id and the entry |
| RenderServer.Server.GetOutput | roles/remotion/files/src/server.js:97-103 | 401 when unauthorized; the file only for a done render; every other case is 404 |
| HealthStore.KindOf | roles/palais/files/app/src/lib/server/db/schema.ts:36 | a status text names a backup kind exactly when it is ok, failed or running |
| HealthStore.FindNode | roles/palais/files/app/src/routes/api/v1/health/webhook/+server.ts:31 | the index of a node with that name, or none when no node has it |
| HealthStore.Store.constructor | roles/palais/files/app/src/lib/server/db/schema.ts:355-387 | a store with the given nodes and no checks, backups or insights |
| HealthStore.Store.UpdateNode | roles/palais/files/app/src/routes/api/v1/health/webhook/+server.ts:40-50 | only the node at that index changes, keeping its id and name |
| HealthStore.Store.InsertBackup | roles/palais/files/app/src/routes/api/v1/health/backup/+server.ts:52-59 | the backup row is appended with the next serial id |
| HealthStore.Store.InsertChecks | roles/palais/files/app/src/routes/api/v1/health/webhook/+server.ts:53-64 | the rows are appended in one statement |
| HealthStore.Store.InsertInsight | roles/palais/files/app/src/routes/api/v1/health/backup/+server.ts:66-77 | the insight is appended |
| HealthWebhook.AllHealthyIff | roles/palais/files/app/src/routes/api/v1/health/webhook/+server.ts:37 | every holds exactly when each service reports healthy, so it holds for no services |
| HealthWebhook.Reported | roles/palais/files/app/src/routes/api/v1/health/webhook/+server.ts:37-50 | the node is online exactly when all services are healthy, seen now, with the metrics as sent |
| HealthWebhook.CheckRows | roles/palais/files/app/src/routes/api/v1/health/webhook/+server.ts:53-62 | one check row per service, in order, with consecutive ids |
| HealthWebhook.Post | roles/palais/files/app/src/routes/api/v1/health/webhook/+server.ts:23-67 | 400 without node or services array, 404 for an unknown node; otherwise the node is updated, then one check per service is stored, and a row the columns refuse throws after the node update |
| HealthWebhook.ReportOnline | roles/palais/files/app/src/routes/api/v1/health/webhook/+server.ts:37-66 | a report of fitting services brings the node online exactly when all are healthy and stores one check per service |
| HealthBackup.ByIdDesc | roles/palais/files/app/src/routes/api/v1/health/backup/+server.ts:10 | the table read from its newest row back |
| HealthBackup.LatestBackups | roles/palais/files/app/src/routes/api/v1/health/backup/+server.ts:8-23 | the GET listing is the first-wins fill over the rows by descending id |
| HealthBackup.LatestPerNode | roles/palais/files/app/src/routes/api/v1/health/backup/+server.ts:12-22 | one row per node that has any, and that row has the node's highest id |
| HealthBackup.StaleBoundary | roles/palais/files/app/src/routes/api/v1/health/backup/+server.ts:62-64 | stale strictly after 24 hours, stays stale as time passes, and a missing time is stale |
| HealthBackup.AlertTitle | roles/palais/files/app/src/routes/api/v1/health/backup/+server.ts:70 | the title starts "Backup échoué" exactly for a failed backup and ends with the node name |
| HealthBackup.AlertDescription | roles/palais/files/app/src/routes/api/v1/health/backup/+server.ts:71-73 | the description starts with the stale text exactly when the backup is stale |
| HealthBackup.Alert | roles/palais/files/app/src/routes/api/v1/health/backup/+server.ts:62-77 | an insight exactly when stale or failed, critical exactly when failed, of type error_pattern and unacknowledged |
| HealthBackup.Post | roles/palais/files/app/src/routes/api/v1/health/backup/+server.ts:35-80 | 400 without node or status, 404 for an unknown node, a throw before any write for a row the columns refuse; otherwise the backup row, the insight when one is due, and 200 |
| HealthNodes.ServiceKeyInjective | roles/palais/files/app/src/routes/api/v1/health/nodes/+server.ts:20 | two checks share a key exactly when they share node and service |
| HealthNodes.Recent | roles/palais/files/app/src/routes/api/v1/health/nodes/+server.ts:11-15 | at most 500 checks, the newest ones |
| HealthNodes.ChecksOf | roles/palais/files/app/src/routes/api/v1/health/nodes/+server.ts:37 | exactly the kept checks of the node |
| HealthNodes.AllWithHealth | roles/palais/files/app/src/routes/api/v1/health/nodes/+server.ts:35-39 | one entry per node, in order, with its services and backup |
| HealthNodes.GroupNodes | roles/palais/files/app/src/routes/api/v1/health/nodes/+server.ts:17-39 | the two first-wins fills and the per-node map give the grouping |
| HealthNodes.ListNodes | roles/palais/files/app/src/routes/api/v1/health/nodes/+server.ts:7-42 | GET returns the grouping of the nodes, the recent checks and the backups |
| HealthNodes.Load | roles/palais/files/app/src/routes/health/+page.server.ts:7-43 | the page gets the same grouping and the VPN topology |
| HealthNodes.RecentNewestFirst | roles/palais/files/app/src/routes/api/v1/health/nodes/+server.ts:14-15 | the recent checks are newest first |
| HealthNodes.KeptIsNewest | roles/palais/files/app/src/routes/api/v1/health/nodes/+server.ts:18-24 | a kept check is the newest recent check of its node and service |
| HealthNodes.ServicesAreNewest | roles/palais/files/app/src/routes/api/v1/health/nodes/+server.ts:35-37 | each service of a node is a recent check of that node, the newest of its service |
| HealthNodes.ServicesDistinct | roles/palais/files/app/src/routes/api/v1/health/nodes/+server.ts:18-37 | no service appears twice among a node's services |
| HealthNodes.ServicesComplete | roles/palais/files/app/src/routes/api/v1/health/nodes/+server.ts:18-37 | every service with a recent check of the node is among its services |
| HealthNodes.BackupOfNode | roles/palais/files/app/src/routes/api/v1/health/nodes/+server.ts:27-38 | a node's backup is its highest-id row, and none only when it has no row |
| FirstWins.Firsts | roles/palais/files/app/src/routes/api/v1/health/nodes/+server.ts:19-24 | the kept rows are no more than the rows and cover the same keys |
| FirstWins.FillFirstWins | roles/palais/files/app/src/routes/api/v1/health/nodes/+server.ts:19-24 | the fill keeps, in insertion order, the first row of each key, and the map holds it |
| FirstWins.FirstsDistinct | roles/palais/files/app/src/routes/api/v1/health/nodes/+server.ts:19-24 | no key is kept twice |
| FirstWins.FirstsAreFirst | roles/palais/files/app/src/routes/api/v1/health/nodes/+server.ts:19-24 | each kept row is the first row of its key |
| FirstWins.FirstWithMaximal | roles/palais/files/app/src/routes/api/v1/health/backup/+server.ts:10-22 | over rows sorted by a descending score, the first of a key has the highest score of that key |
| LiteLlm.DeriveProvider | roles/palais/files/app/src/lib/server/budget/litellm.ts:113-119 | the provider is one of openai, anthropic, openrouter and unknown |
| LiteLlm.DeriveProviderCases | roles/palais/files/app/src/lib/server/budget/litellm.ts:113-119 | the rules apply in order: an OpenAI prefix, then claude, then the OpenRouter substrings, else unknown |
| LiteLlm.ClaudeBeforeOpenRouter | roles/palais/files/app/src/lib/server/budget/litellm.ts:115-116 | a claude name holding an OpenRouter substring is still anthropic |
| LiteLlm.EmptyAndUpperCaseUnknown | roles/palais/files/app/src/lib/server/budget/litellm.ts:113-119 | matching is case-sensitive; an empty name is unknown |
| LiteLlm.ModelSpendOf | roles/palais/files/app/src/lib/server/budget/litellm.ts:101-107 | a missing or null model is "unknown", a missing provider is derived from the model's String() text, missing numbers are 0, and present values go through String() and Number(), NaN included |
| LiteLlm.SpendByModel | roles/palais/files/app/src/lib/server/budget/litellm.ts:83-111 | [] unless the response is OK and an array, and [] when an element is null (reading its fields throws and the catch answers []); else one entry per element, in order |
| LiteLlm.NullItemEmptiesReport | roles/palais/files/app/src/lib/server/budget/litellm.ts:101-110 | one null element anywhere empties the whole breakdown |
| LiteLlm.BareItemUnknown | roles/palais/files/app/src/lib/server/budget/litellm.ts:101-107 | an element with neither model nor provider is an unknown model of an unknown provider |
| JsText.ParseIntPrefix | roles/palais/files/app/src/lib/server/memory/enrich.ts:23 | parseInt reads the leading decimal digits and ignores whatever follows them |
| JsText.ParseIntOfString | roles/palais/files/app/src/lib/server/memory/enrich.ts:23 | parseInt of a printed integer gives the integer back |
| JsText.ReplaceFirstAtStart | roles/palais/files/app/src/lib/server/memory/enrich.ts:23 | replace with a string pattern swaps only the first occurrence |
| JsText.ToLowerIdempotent | roles/palais/files/app/scripts/migrate-kaneo.ts:40 | lower-casing twice is lower-casing once |
| Sorting.SortDesc | roles/palais/files/app/src/routes/api/v1/budget/schedule/+server.ts:65 | the result is sorted by descending key and is a permutation of the input |
| Sorting.SortDescStable | roles/palais/files/app/src/routes/api/v1/budget/schedule/+server.ts:65 | the sort is stable: for every key, the elements with that key come out in the order they went in |
| Sorting.SortDescMembers | roles/palais/files/app/src/routes/api/v1/budget/schedule/+server.ts:65 | sorting keeps exactly the input's elements |

## Left out

- **I/O and services.** HTTP transport, the database driver, the Qdrant, embedding, LLM, Headscale and LiteLLM clients, `fetch`, the file system and console logging are not modelled. Their answers are parameters. The embedding client's contracts (`generateEmbedding` throws, `tryGenerateEmbedding` returns null) and Qdrant's `searchPoints` (`[]` on a non-OK answer) appear only through those answers.
- **Qdrant setup.** `ensureQdrantCollection` and `deletePoint` in `memory/qdrant.ts` are not part of this model; nothing in the core calls them.
- **`fetchLiteLLMSpend`.** It totals spend over an HTTP answer in floating point and is not part of this model. Only `deriveProvider` and the `getLiteLLMSpendByModel` mapping are.
- **Floating point.** Money, scores, percentages and vectors are `real`. IEEE rounding, `NaN` (except the zero-budget percentage in the budget detector) and JavaScript's number-to-text conversion are parameters or left out.
- **Dates.** Timestamps are integers in milliseconds. Parsing a date string, time zones, `setHours` day boundaries and `toISOString` or `toLocaleDateString` formatting are parameters. An unparseable date string (an invalid `Date`) is not modelled.
- **Text encoding.** Strings are sequences of characters. UTF-16 code units, Unicode case folding and Postgres collation for `ORDER BY name` are not modelled; the ordered query results are parameters whose order the contracts require.
- **Concurrency.** Fire-and-forget calls (enrichment after a node is created, the embedding after an MCP store, the render's background function) run as sequential steps right after the call that starts them. Races between concurrent requests are not modelled, and neither are the timers and intervals that schedule the detectors, the standup and the SSE keepalive.
- **Renderer.** `bundle`, `selectComposition`, `renderMedia`, `ensureBrowser` and the static file serving of finished videos are foreign calls. Their outcome (progress reports, success, or an error message) is an input to the queue and server methods. The path resolution of `path.join` is not modelled.
- **Crawler details.** In the Plane crawler, the HTML parsing, URL joining, `urlparse` netloc comparison and the md5 hash itself are not modelled (the string it hashes is). The validity test of a URL is an abstract predicate.
- **Script entry points.** The `main` functions of the Kaneo migration, the troubleshooting seed and the Plane indexer are modelled only as far as their loops and skip rules go. Environment variables, dry-run printing and process exit codes are left out.
- **Health page VPN topology.** The `/health` page's `fetchVPNTopology` answer is passed through unchanged as a parameter.
- **Other modules.** The other MCP tool domains (agents, budget, deliverables, insights, standup), the remaining CRUD routes and page loaders, and the budget burn-rate arithmetic are not part of this model. The MCP router sees them only as tool names in the registry order.
- McpTasksTool.TasksDb.Update: an `id` key would move the row's primary key, which the comments, time entries and dependencies refer to and the serial counter does not follow; it is not modelled, and the model keeps the id. The columns `startDate`, `endDate`, `dueDate`, `position`, `missionId` and `sessionId` are not part of the modelled row, so keys naming them are not modelled either. A key whose JSON value has the wrong type for its column is outside the model.
- McpTasksTool.TasksDb.Handle: an update through it has the same gaps as `McpTasksTool.TasksDb.Update` (the `id` key and the unmodelled columns).
- MemoryExtract.ExtractOne: a non-string relation is tagged with its template-literal text; what the database driver and the vector payload would make of the raw value is not modelled.
- RenderQueue.CancelledJobHaltsChain: what the process does with the unhandled rejection (by default it exits, losing the in-memory jobs) is not modelled; the method speaks of the chain only.
- **Serial ids of refused inserts.** In `MemorySchema.MemoryDb.InsertEdge` and `Projects.ProjectsDb.InsertProject` a refused insert leaves the id counter where it was, whereas a Postgres sequence advances even when the insert then fails; the model's ids can therefore be smaller than the database's, though they stay distinct and increasing.
- **Unused fields.** The `validFrom` and `validUntil` columns of the memory nodes are never set or read by the modelled code, so the modelled rows leave them out; the `supersedes` relation is kept in the enum but nothing writes it.

## Findings

| source | as written | input that shows it | evidently intended | confidence | as-written member | corrected member |
|---|---|---|---|---|---|---|
| roles/palais/files/app/scripts/migrate-kaneo.ts:30-41 | `mapStatus` looks the lower-cased status up in a plain object literal, so inherited `Object.prototype` members are found too | a Kaneo task whose status is "constructor" (or "__proto__"; the status is lower-cased first, so only all-lower-case inherited names leak) maps to a function or object instead of a status; the column lookup misses and falls back to the backlog column, and the insert is handed that function or object as the status value | unknown statuses fall back to "backlog" | not executed | KaneoStatus.MapStatusAsWrittenLeaks | KaneoStatus.MapStatus |
| roles/palais/files/app/src/routes/api/v1/budget/schedule/+server.ts:17-23 | the weight is `PRIORITY_WEIGHTS[t.priority] ?? 1` on a plain object literal, with the priority as the client sent it, so inherited `Object.prototype` members are found and `?? 1` does not apply | a pending task whose priority is "toString" (or "constructor", "valueOf", "__proto__") gets a NaN score; the comparator then answers NaN, which the sort reads as "equal", so the ranking no longer follows the scores | any priority outside the table weighs 1 | not executed | BudgetSchedule.WeightAsWrittenLeaks | BudgetSchedule.Weight |
