/**
 * `/api/v1/health/backup`. `GET` lists the latest backup row of each node: the rows ordered by
 * descending id, filled first-wins into a map keyed by node id. `POST` records a backup report
 * and raises an insight when the backup is stale (missing, or older than 24 hours) or failed.
 * Dates in the body are given as instants (milliseconds); `toISOString` is a parameter.
 */
module HealthBackup {
  import opened Wrappers
  import opened JsText
  import opened HealthStore
  import opened FirstWins

  /** 24 h in milliseconds. */
  const DayMs: int := 24 * 60 * 60 * 1000

  // ------------------------------------------------------------------ GET

  /** `orderBy(desc(backupStatus.id))`: the table read from its newest row back. */
  function ByIdDesc(rows: seq<BackupRow>): (r: seq<BackupRow>)
    ensures |r| == |rows|
    ensures forall k :: 0 <= k < |rows| ==> r[k] == rows[|rows| - 1 - k]
  {
    seq(|rows|, k requires 0 <= k < |rows| => rows[|rows| - 1 - k])
  }

  function NodeOf(b: BackupRow): int { b.nodeId }

  /** The rows `Array.from(latestByNode.values())` lists. */
  function Latest(rows: seq<BackupRow>): seq<BackupRow> {
    Firsts(ByIdDesc(rows), NodeOf)
  }

  /** `GET`: the first-wins fill over the rows by descending id, in the map's insertion order. */
  method LatestBackups(store: Store) returns (latest: seq<BackupRow>)
    ensures latest == Latest(store.backups)
  {
    var allBackups := ByIdDesc(store.backups);
    var latestByNode;
    latest, latestByNode := FillFirstWins(allBackups, NodeOf);
  }

  /** b has the highest id among the rows of its node. */
  ghost predicate HighestOfNode(rows: seq<BackupRow>, b: BackupRow) {
    b in rows && forall k :: 0 <= k < |rows| && rows[k].nodeId == b.nodeId ==> rows[k].id <= b.id
  }

  /**
   * Over a table with serial ids, the listing holds one row per node that has any, and that
   * row is the node's highest-id one.
   */
  lemma LatestPerNode(rows: seq<BackupRow>, next: int)
    requires BackupIdsBelow(rows, next)
    ensures KeysDistinct(Latest(rows), NodeOf)
    ensures KeysOf(Latest(rows), NodeOf) == KeysOf(rows, NodeOf)
    ensures forall k :: 0 <= k < |Latest(rows)| ==> HighestOfNode(rows, Latest(rows)[k])
  {
    FirstsDistinct(ByIdDesc(rows), NodeOf);
    ByIdDescKeys(rows);
    forall k | 0 <= k < |Latest(rows)| ensures HighestOfNode(rows, Latest(rows)[k]) {
      LatestIsHighest(rows, next, k);
    }
  }

  /** The keys of the rows read newest first are the keys of the table. */
  lemma ByIdDescKeys(rows: seq<BackupRow>)
    ensures KeysOf(ByIdDesc(rows), NodeOf) == KeysOf(rows, NodeOf)
  {
    var desc := ByIdDesc(rows);
    forall n | n in KeysOf(rows, NodeOf) ensures n in KeysOf(desc, NodeOf) {
      var i :| 0 <= i < |rows| && NodeOf(rows[i]) == n;
      assert desc[|rows| - 1 - i] == rows[i];
    }
  }

  /** The row the fill keeps for node n is n's highest-id row. */
  lemma FirstWithHighest(rows: seq<BackupRow>, next: int, n: int)
    requires BackupIdsBelow(rows, next) && n in KeysOf(rows, NodeOf)
    ensures n in KeysOf(ByIdDesc(rows), NodeOf)
    ensures var b := FirstWith(ByIdDesc(rows), NodeOf, n); b.nodeId == n && HighestOfNode(rows, b)
  {
    var desc := ByIdDesc(rows);
    ByIdDescKeys(rows);
    FirstWithMaximal(desc, NodeOf, IdOf, n);
    var b := FirstWith(desc, NodeOf, n);
    forall m | 0 <= m < |rows| && rows[m].nodeId == n ensures rows[m].id <= b.id {
      assert desc[|rows| - 1 - m] == rows[m];
    }
  }

  function IdOf(b: BackupRow): int { b.id }

  lemma LatestIsHighest(rows: seq<BackupRow>, next: int, k: nat)
    requires BackupIdsBelow(rows, next) && k < |Latest(rows)|
    ensures HighestOfNode(rows, Latest(rows)[k])
  {
    var desc := ByIdDesc(rows);
    FirstsAreFirst(desc, NodeOf, k);
    ByIdDescKeys(rows);
    FirstWithHighest(rows, next, Latest(rows)[k].nodeId);
  }

  // ------------------------------------------------------------------ POST

  datatype BackupPayload = BackupPayload(node: Option<string>, lastBackupAt: Option<int>, nextBackupAt: Option<int>,
                                         sizeBytes: Option<int>, status: Option<string>, details: Option<Details>)

  datatype Body = ErrorBody(error: string) | Recorded(node: string, status: string)

  datatype Reply = Reply(code: nat, body: Body)

  /** How the request ends: a JSON reply, or an exception out of the handler (a 500). */
  datatype Response = Replied(reply: Reply) | Thrown

  /** A backup with no last time, or whose last time is more than 24 h before `now`. */
  predicate IsStale(lastBackupAt: Option<int>, now: int) {
    lastBackupAt.None? || now - lastBackupAt.value > DayMs
  }

  /** Staleness starts strictly after 24 h, and once stale a backup stays stale as time passes. */
  lemma StaleBoundary(t: int, now: int, later: int)
    requires now <= later
    ensures !IsStale(Some(t), t + DayMs) && IsStale(Some(t), t + DayMs + 1)
    ensures IsStale(Some(t), now) ==> IsStale(Some(t), later)
    ensures IsStale(None, now)
  {
  }

  const StaleLead: string := "Dernier backup : "

  /** The insight's title: "échoué" for a failed backup, "obsolète" otherwise, then the node. */
  function AlertTitle(failed: bool, name: string): (t: string)
    ensures StartsWith(t, "Backup échoué") <==> failed
    ensures |t| > |name| && t[|t| - |name|..] == name
  {
    var verdict := if failed then "échoué" else "obsolète";
    var t := "Backup " + verdict + " — " + name;
    assert t[7] == verdict[0];
    assert failed ==> t[..13] == "Backup échoué";
    assert t == ("Backup " + verdict + " — ") + name;
    t
  }

  /** The insight's description: the stale text, with the last time or "jamais", else the status text. */
  function AlertDescription(stale: bool, lastBackupAt: Option<int>, status: string, name: string,
                            iso: int -> string): (d: string)
    ensures StartsWith(d, StaleLead) <==> stale
  {
    if stale then
      StaleLead + (if lastBackupAt.Some? then iso(lastBackupAt.value) else "jamais") + ". Délai > 24h."
    else
      assert ("Backup en status \"" + status + "\" sur " + name + ".")[0] == 'B';
      "Backup en status \"" + status + "\" sur " + name + "."
  }

  /** The insight a report raises, if any. */
  function Alert(name: string, status: string, lastBackupAt: Option<int>, now: int, iso: int -> string): (a: Option<Insight>)
    ensures a.Some? <==> IsStale(lastBackupAt, now) || status == "failed"
    ensures a.Some? ==> (a.value.severity == Critical <==> status == "failed")
    ensures a.Some? ==> (StartsWith(a.value.title, "Backup échoué") <==> status == "failed")
    ensures a.Some? ==> (StartsWith(a.value.description, StaleLead) <==> IsStale(lastBackupAt, now))
    ensures a.Some? ==> a.value.insightType == "error_pattern" && !a.value.acknowledged
  {
    var stale := IsStale(lastBackupAt, now);
    var failed := status == "failed";
    if stale || failed then
      Some(Insight("error_pattern", if failed then Critical else Warning, AlertTitle(failed, name),
                   AlertDescription(stale, lastBackupAt, status, name, iso),
                   ["Vérifier Zerobyte sur le noeud cible"], false))
    else None
  }

  function AsRows(a: Option<Insight>): seq<Insight> {
    if a.Some? then [a.value] else []
  }

  /** Whether the body passes `!body.node || !body.status`. */
  predicate Posted(p: BackupPayload) {
    p.node.Some? && p.node.value != "" && p.status.Some? && p.status.value != ""
  }

  /** Whether the row satisfies the columns: a `backup_status_type` status and a 32-bit size. */
  predicate Storable(p: BackupPayload) {
    p.status.Some? && KindOf(p.status.value).Some? && FitsInteger(p.sizeBytes)
  }

  /** The error body for a node name that is not in the table. */
  function NodeNotFound(name: string): string {
    "Node \"" + name + "\" not found"
  }

  /**
   * `POST`, with `now` the clock: 400 without node or status, 404 for an unknown node; else a
   * new backup row, an insight when the backup is stale or failed, and the reply. A row the
   * columns refuse (an unknown status, a size past 32 bits) throws before anything is stored.
   */
  method Post(store: Store, p: BackupPayload, now: int, iso: int -> string) returns (r: Response)
    requires store.Valid()
    modifies store
    ensures store.Valid() && store.nodes == old(store.nodes) && store.checks == old(store.checks)
    ensures !Posted(p) ==> r == Replied(Reply(400, ErrorBody("Missing node or status"))) && unchanged(store)
    ensures Posted(p) && FindNode(store.nodes, p.node.value).None? ==>
      r == Replied(Reply(404, ErrorBody(NodeNotFound(p.node.value)))) && unchanged(store)
    ensures Posted(p) && FindNode(store.nodes, p.node.value).Some? && !Storable(p) ==>
      r == Thrown && unchanged(store)
    ensures Posted(p) && FindNode(store.nodes, p.node.value).Some? && Storable(p) ==>
      var node := store.nodes[FindNode(store.nodes, p.node.value).value];
      store.backups == old(store.backups) + [BackupRow(old(store.nextBackupId), node.id, p.lastBackupAt, p.nextBackupAt,
                                                       p.sizeBytes, KindOf(p.status.value).value, p.details)]
      && store.insights == old(store.insights) + AsRows(Alert(node.name, p.status.value, p.lastBackupAt, now, iso))
      && r == Replied(Reply(200, Recorded(p.node.value, p.status.value)))
  {
    if !Posted(p) {
      return Replied(Reply(400, ErrorBody("Missing node or status")));
    }
    var found := FindNode(store.nodes, p.node.value);
    if found.None? {
      return Replied(Reply(404, ErrorBody(NodeNotFound(p.node.value))));
    }
    var node := store.nodes[found.value];
    if !Storable(p) {
      return Thrown;
    }
    store.InsertBackup(node.id, p.lastBackupAt, p.nextBackupAt, p.sizeBytes, KindOf(p.status.value).value, p.details);
    var alert := Alert(node.name, p.status.value, p.lastBackupAt, now, iso);
    if alert.Some? {
      store.InsertInsight(alert.value);
    }
    r := Replied(Reply(200, Recorded(p.node.value, p.status.value)));
  }
}
