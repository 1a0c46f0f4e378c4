/**
 * The tables the health routes read and write (`nodes`, `health_checks`, `backup_status`,
 * `insights`), held as sequences in insertion order, with the column constraints that make an
 * insert fail: `varchar(n)` lengths, 32-bit `integer` columns, `notNull` and the
 * `backup_status_type` enum. Serial ids are handed out in increasing order.
 */
module HealthStore {
  import opened Wrappers

  /** The largest value of a Postgres `integer` column. */
  const IntegerMax: int := 2147483647
  const IntegerMin: int := -2147483648

  predicate FitsInteger(n: Option<int>) {
    n.None? || IntegerMin <= n.value <= IntegerMax
  }

  /** A `jsonb` object, kept as property name to JSON text. */
  datatype Details = Details(entries: map<string, string>)

  datatype NodeStatus = Online | Offline

  datatype Node = Node(id: int, name: string, status: Option<NodeStatus>, lastSeenAt: Option<int>,
                       cpuPercent: Option<real>, ramPercent: Option<real>,
                       diskPercent: Option<real>, temperature: Option<real>)

  datatype HealthCheck = HealthCheck(id: int, nodeId: int, serviceName: string, status: string,
                                     responseTimeMs: Option<int>, checkedAt: int, details: Option<Details>)

  datatype BackupKind = Ok | Failed | Running

  /** The `backup_status_type` value a request's status text names, if any. */
  function KindOf(s: string): (k: Option<BackupKind>)
    ensures k == Some(Ok) <==> s == "ok"
    ensures k == Some(Failed) <==> s == "failed"
    ensures k == Some(Running) <==> s == "running"
  {
    if s == "ok" then Some(Ok) else if s == "failed" then Some(Failed) else if s == "running" then Some(Running) else None
  }

  datatype BackupRow = BackupRow(id: int, nodeId: int, lastBackupAt: Option<int>, nextBackupAt: Option<int>,
                                 sizeBytes: Option<int>, status: BackupKind, details: Option<Details>)

  datatype Severity = Warning | Critical

  /** An `insights` row as the backup route writes it. */
  datatype Insight = Insight(insightType: string, severity: Severity, title: string, description: string,
                             suggestedActions: seq<string>, acknowledged: bool)

  /** The index of the node with that name; names are unique, so there is at most one. */
  function FindNode(nodes: seq<Node>, name: string): (r: Option<nat>)
    ensures r.Some? ==> r.value < |nodes| && nodes[r.value].name == name
    ensures r.None? ==> forall i :: 0 <= i < |nodes| ==> nodes[i].name != name
  {
    if nodes == [] then None
    else if nodes[0].name == name then Some(0)
    else
      var r := FindNode(nodes[1..], name);
      if r.Some? then Some(r.value + 1) else None
  }

  ghost predicate NamesUnique(nodes: seq<Node>) {
    forall i, j :: 0 <= i < j < |nodes| ==> nodes[i].name != nodes[j].name
  }

  ghost predicate NodeIdsUnique(nodes: seq<Node>) {
    forall i, j :: 0 <= i < j < |nodes| ==> nodes[i].id != nodes[j].id
  }

  /** Serial ids: every row's id is below the next one and above every earlier row's. */
  ghost predicate BackupIdsBelow(rows: seq<BackupRow>, next: int) {
    (forall i :: 0 <= i < |rows| ==> rows[i].id < next)
    && (forall i, j :: 0 <= i < j < |rows| ==> rows[i].id < rows[j].id)
  }

  class Store {
    var nodes: seq<Node>
    var checks: seq<HealthCheck>
    var backups: seq<BackupRow>
    var insights: seq<Insight>
    var nextCheckId: int
    var nextBackupId: int

    ghost predicate Valid()
      reads this
    {
      NamesUnique(nodes) && NodeIdsUnique(nodes) && BackupIdsBelow(backups, nextBackupId)
    }

    constructor (nodes: seq<Node>)
      requires NamesUnique(nodes) && NodeIdsUnique(nodes)
      ensures Valid() && this.nodes == nodes && checks == [] && backups == [] && insights == []
    {
      this.nodes := nodes;
      checks, backups, insights := [], [], [];
      nextCheckId, nextBackupId := 1, 1;
    }

    /** `update(nodes).set(fields).where(eq(nodes.id, id))` for the node at index i; its id is unique. */
    method UpdateNode(i: nat, node: Node)
      requires Valid() && i < |nodes| && node.id == nodes[i].id && node.name == nodes[i].name
      modifies this`nodes
      ensures Valid() && nodes == old(nodes)[i := node]
    {
      nodes := nodes[i := node];
    }

    /** `insert(backupStatus).values(row)`: the row gets the next serial id. */
    method InsertBackup(nodeId: int, lastBackupAt: Option<int>, nextBackupAt: Option<int>,
                        sizeBytes: Option<int>, status: BackupKind, details: Option<Details>)
      requires Valid()
      modifies this`backups, this`nextBackupId
      ensures Valid() && nextBackupId == old(nextBackupId) + 1
      ensures backups == old(backups) + [BackupRow(old(nextBackupId), nodeId, lastBackupAt, nextBackupAt, sizeBytes, status, details)]
    {
      backups := backups + [BackupRow(nextBackupId, nodeId, lastBackupAt, nextBackupAt, sizeBytes, status, details)];
      nextBackupId := nextBackupId + 1;
    }

    /** A multi-row `insert(healthChecks).values(rows)`: one statement, so all rows or none. */
    method InsertChecks(rows: seq<HealthCheck>)
      requires Valid()
      modifies this`checks, this`nextCheckId
      ensures Valid() && checks == old(checks) + rows && nextCheckId == old(nextCheckId) + |rows|
    {
      checks := checks + rows;
      nextCheckId := nextCheckId + |rows|;
    }

    /** `insert(insights).values(insight)`. */
    method InsertInsight(insight: Insight)
      requires Valid()
      modifies this`insights
      ensures Valid() && insights == old(insights) + [insight]
    {
      insights := insights + [insight];
    }
  }
}
