/**
 * `GET /api/v1/health/nodes` and the `/health` page's `load`: every node with its latest check
 * per service and its latest backup. Checks come newest first, limited to 500; they are filled
 * first-wins into a map keyed by `${nodeId}:${serviceName}`, backups into a map keyed by node
 * id, and each node takes the kept checks with its id and the backup of its id, if any.
 */
module HealthNodes {
  import opened Wrappers
  import opened JsText
  import opened HealthStore
  import opened FirstWins
  import HealthBackup

  const RecentLimit: nat := 500

  /** `${check.nodeId}:${check.serviceName}`. */
  function ServiceKey(c: HealthCheck): string {
    IntToString(c.nodeId) + ":" + c.serviceName
  }

  lemma NoColonInNumber(n: int)
    ensures ':' !in IntToString(n)
  {
    if n < 0 {
      assert IntToString(n) == "-" + NatToString(-n);
    }
  }

  /** Text with no c before the first c it is joined with splits back at that c. */
  lemma SplitAtFirst(x: string, s: string, y: string, t: string, c: char)
    requires c !in x && c !in y && x + [c] + s == y + [c] + t
    ensures x == y && s == t
  {
    var u := x + [c] + s;
    assert u[|x|] == c && u[|y|] == c;
    assert forall i :: 0 <= i < |x| ==> u[i] == x[i];
    assert forall i :: 0 <= i < |y| ==> u[i] == y[i];
    assert |x| == |y|;
    assert x == u[..|x|] && y == u[..|y|];
    assert s == u[|x| + 1..] && t == u[|y| + 1..];
  }

  /** A node id prints without a colon, so the key names exactly one node and one service. */
  lemma ServiceKeyInjective(a: HealthCheck, b: HealthCheck)
    ensures ServiceKey(a) == ServiceKey(b) <==> a.nodeId == b.nodeId && a.serviceName == b.serviceName
  {
    if ServiceKey(a) == ServiceKey(b) {
      NoColonInNumber(a.nodeId);
      NoColonInNumber(b.nodeId);
      SplitAtFirst(IntToString(a.nodeId), a.serviceName, IntToString(b.nodeId), b.serviceName, ':');
      ParseIntOfString(a.nodeId);
      ParseIntOfString(b.nodeId);
    }
  }

  function CheckedAt(c: HealthCheck): int { c.checkedAt }

  /** The order the checks query returns: the whole table, newest `checkedAt` first. */
  ghost predicate ByRecency(ordered: seq<HealthCheck>, table: seq<HealthCheck>) {
    multiset(ordered) == multiset(table)
    && forall i, j :: 0 <= i < j < |ordered| ==> ordered[i].checkedAt >= ordered[j].checkedAt
  }

  /** `.limit(500)`. */
  function Recent(ordered: seq<HealthCheck>): (r: seq<HealthCheck>)
    ensures |r| == if |ordered| <= RecentLimit then |ordered| else RecentLimit
    ensures r == ordered[..|r|]
  {
    if |ordered| <= RecentLimit then ordered else ordered[..RecentLimit]
  }

  /** `Array.from(latestByNodeService.values()).filter((c) => c.nodeId === nodeId)`. */
  function ChecksOf(kept: seq<HealthCheck>, nodeId: int): (r: seq<HealthCheck>)
    ensures forall c :: c in r <==> c in kept && c.nodeId == nodeId
  {
    if kept == [] then []
    else
      var rest := ChecksOf(kept[1..], nodeId);
      assert forall c :: c in kept <==> c == kept[0] || c in kept[1..];
      if kept[0].nodeId == nodeId then [kept[0]] + rest else rest
  }

  /** A node with its services and its backup (`null` is `None`). */
  datatype NodeHealth = NodeHealth(node: Node, services: seq<HealthCheck>, backup: Option<BackupRow>)

  function BackupOf(latest: map<int, BackupRow>, nodeId: int): Option<BackupRow> {
    if nodeId in latest then Some(latest[nodeId]) else None
  }

  function WithHealth(node: Node, kept: seq<HealthCheck>, latest: map<int, BackupRow>): NodeHealth {
    NodeHealth(node, ChecksOf(kept, node.id), BackupOf(latest, node.id))
  }

  /** `allNodes.map(...)`. */
  function AllWithHealth(allNodes: seq<Node>, kept: seq<HealthCheck>, latest: map<int, BackupRow>): (r: seq<NodeHealth>)
    ensures |r| == |allNodes|
    ensures forall i :: 0 <= i < |allNodes| ==> r[i] == WithHealth(allNodes[i], kept, latest)
  {
    seq(|allNodes|, i requires 0 <= i < |allNodes| => WithHealth(allNodes[i], kept, latest))
  }

  /** The grouping both handlers share, given the rows their queries return. */
  function Grouped(allNodes: seq<Node>, checksByRecency: seq<HealthCheck>, backups: seq<BackupRow>): seq<NodeHealth> {
    AllWithHealth(allNodes, Firsts(Recent(checksByRecency), ServiceKey),
                  FirstMap(HealthBackup.ByIdDesc(backups), HealthBackup.NodeOf))
  }

  /**
   * The body of both handlers: the two first-wins fills and the per-node map. `allNodes` is
   * the nodes query (the table ordered by name) and `checksByRecency` the checks query before
   * its limit.
   */
  method GroupNodes(store: Store, allNodes: seq<Node>, checksByRecency: seq<HealthCheck>) returns (result: seq<NodeHealth>)
    requires multiset(allNodes) == multiset(store.nodes)
    requires ByRecency(checksByRecency, store.checks)
    ensures result == Grouped(allNodes, checksByRecency, store.backups)
  {
    var recentChecks := Recent(checksByRecency);
    var kept, latestByNodeService := FillFirstWins(recentChecks, ServiceKey);
    var backups := HealthBackup.ByIdDesc(store.backups);
    var order, latestBackupByNode := FillFirstWins(backups, HealthBackup.NodeOf);
    result := AllWithHealth(allNodes, kept, latestBackupByNode);
  }

  /** `GET /api/v1/health/nodes`. */
  method ListNodes(store: Store, allNodes: seq<Node>, checksByRecency: seq<HealthCheck>) returns (result: seq<NodeHealth>)
    requires multiset(allNodes) == multiset(store.nodes)
    requires ByRecency(checksByRecency, store.checks)
    ensures result == Grouped(allNodes, checksByRecency, store.backups)
  {
    result := GroupNodes(store, allNodes, checksByRecency);
  }

  /** What the page's `load` returns; the VPN topology comes from Headscale. */
  datatype PageData<V> = PageData(nodes: seq<NodeHealth>, vpnTopology: V)

  /** The `/health` page's `load`, with `vpnTopology` what `fetchVPNTopology` returned. */
  method Load<V>(store: Store, allNodes: seq<Node>, checksByRecency: seq<HealthCheck>, vpnTopology: V) returns (data: PageData<V>)
    requires multiset(allNodes) == multiset(store.nodes)
    requires ByRecency(checksByRecency, store.checks)
    ensures data == PageData(Grouped(allNodes, checksByRecency, store.backups), vpnTopology)
  {
    var nodesWithHealth := GroupNodes(store, allNodes, checksByRecency);
    data := PageData(nodesWithHealth, vpnTopology);
  }

  // ------------------------------------------------------------------ properties

  /** A check newer than or as new as every recent check of its node and service. */
  ghost predicate NewestOfService(recent: seq<HealthCheck>, c: HealthCheck) {
    forall m :: 0 <= m < |recent| && recent[m].nodeId == c.nodeId && recent[m].serviceName == c.serviceName ==>
      recent[m].checkedAt <= c.checkedAt
  }

  /** The services the grouping gives a node. */
  function ServicesFrom(checksByRecency: seq<HealthCheck>, nodeId: int): seq<HealthCheck> {
    ChecksOf(Firsts(Recent(checksByRecency), ServiceKey), nodeId)
  }

  /** Newest `checkedAt` first. */
  ghost predicate NewestFirst(checks: seq<HealthCheck>) {
    forall i, j :: 0 <= i < j < |checks| ==> checks[i].checkedAt >= checks[j].checkedAt
  }

  lemma RecentNewestFirst(checksByRecency: seq<HealthCheck>, table: seq<HealthCheck>)
    requires ByRecency(checksByRecency, table)
    ensures NewestFirst(Recent(checksByRecency))
  {
  }

  /** A kept check is the newest recent check of its node and service. */
  lemma KeptIsNewest(recent: seq<HealthCheck>, i: nat)
    requires NewestFirst(recent) && i < |Firsts(recent, ServiceKey)|
    ensures var c := Firsts(recent, ServiceKey)[i]; c in recent && NewestOfService(recent, c)
  {
    var c := Firsts(recent, ServiceKey)[i];
    FirstsAreFirst(recent, ServiceKey, i);
    FirstWithMaximal(recent, ServiceKey, CheckedAt, ServiceKey(c));
    forall m | 0 <= m < |recent| && recent[m].nodeId == c.nodeId && recent[m].serviceName == c.serviceName
      ensures recent[m].checkedAt <= c.checkedAt
    {
      assert ServiceKey(recent[m]) == ServiceKey(c);
    }
  }

  /** Each of a node's services is a recent check of that node, the newest of its service. */
  lemma ServicesAreNewest(checksByRecency: seq<HealthCheck>, table: seq<HealthCheck>, nodeId: int, k: nat)
    requires ByRecency(checksByRecency, table) && k < |ServicesFrom(checksByRecency, nodeId)|
    ensures var c := ServicesFrom(checksByRecency, nodeId)[k];
      c in Recent(checksByRecency) && c.nodeId == nodeId && NewestOfService(Recent(checksByRecency), c)
  {
    var recent := Recent(checksByRecency);
    var kept := Firsts(recent, ServiceKey);
    var c := ServicesFrom(checksByRecency, nodeId)[k];
    assert c in kept;
    var i :| 0 <= i < |kept| && kept[i] == c;
    RecentNewestFirst(checksByRecency, table);
    KeptIsNewest(recent, i);
  }

  /** No service appears twice among a node's services. */
  lemma ServicesDistinct(checksByRecency: seq<HealthCheck>, nodeId: int)
    ensures var services := ServicesFrom(checksByRecency, nodeId);
      forall i, j :: 0 <= i < j < |services| ==> services[i].serviceName != services[j].serviceName
  {
    var kept := Firsts(Recent(checksByRecency), ServiceKey);
    var services := ServicesFrom(checksByRecency, nodeId);
    FirstsDistinct(Recent(checksByRecency), ServiceKey);
    ChecksOfDistinct(kept, nodeId);
    forall i, j | 0 <= i < j < |services| ensures services[i].serviceName != services[j].serviceName {
      assert services[i] in kept && services[j] in kept;
      assert ServiceKey(services[i]) != ServiceKey(services[j]);
    }
  }

  /** Every service with a recent check of the node is among the node's services. */
  lemma ServicesComplete(checksByRecency: seq<HealthCheck>, nodeId: int, m: nat)
    requires m < |Recent(checksByRecency)| && Recent(checksByRecency)[m].nodeId == nodeId
    ensures exists c :: c in ServicesFrom(checksByRecency, nodeId) && c.serviceName == Recent(checksByRecency)[m].serviceName
  {
    var recent := Recent(checksByRecency);
    var kept := Firsts(recent, ServiceKey);
    assert ServiceKey(recent[m]) in KeysOf(kept, ServiceKey);
    var i :| 0 <= i < |kept| && ServiceKey(kept[i]) == ServiceKey(recent[m]);
    ServiceKeyInjective(kept[i], recent[m]);
    assert kept[i] in ServicesFrom(checksByRecency, nodeId);
  }

  /** Keeping a node's checks keeps the keys distinct. */
  lemma {:induction false} ChecksOfDistinct(kept: seq<HealthCheck>, nodeId: int)
    requires KeysDistinct(kept, ServiceKey)
    ensures KeysDistinct(ChecksOf(kept, nodeId), ServiceKey)
  {
    if kept != [] {
      var tail := kept[1..];
      assert KeysDistinct(tail, ServiceKey) by {
        forall a, b | 0 <= a < b < |tail| ensures ServiceKey(tail[a]) != ServiceKey(tail[b]) {
          assert tail[a] == kept[a + 1] && tail[b] == kept[b + 1];
        }
      }
      ChecksOfDistinct(tail, nodeId);
      if kept[0].nodeId == nodeId {
        var rest := ChecksOf(tail, nodeId);
        HeadKeyNew(kept, nodeId);
        ConsDistinct(kept[0], rest);
      }
    }
  }

  lemma HeadKeyNew(kept: seq<HealthCheck>, nodeId: int)
    requires kept != [] && KeysDistinct(kept, ServiceKey)
    ensures forall c :: c in ChecksOf(kept[1..], nodeId) ==> ServiceKey(c) != ServiceKey(kept[0])
  {
    forall c | c in ChecksOf(kept[1..], nodeId) ensures ServiceKey(c) != ServiceKey(kept[0]) {
      var m :| 0 <= m < |kept[1..]| && kept[1..][m] == c;
      assert kept[m + 1] == c;
    }
  }

  lemma ConsDistinct(x: HealthCheck, rest: seq<HealthCheck>)
    requires KeysDistinct(rest, ServiceKey)
    requires forall c :: c in rest ==> ServiceKey(c) != ServiceKey(x)
    ensures KeysDistinct([x] + rest, ServiceKey)
  {
    var s := [x] + rest;
    forall a, b | 0 <= a < b < |s| ensures ServiceKey(s[a]) != ServiceKey(s[b]) {
      assert s[b] == rest[b - 1];
      if a > 0 {
        assert s[a] == rest[a - 1];
      }
    }
  }

  /**
   * A node's backup is its highest-id backup row, and there is none only when the node has no
   * backup row at all.
   */
  lemma BackupOfNode(backups: seq<BackupRow>, next: int, kept: seq<HealthCheck>, node: Node)
    requires BackupIdsBelow(backups, next)
    ensures var b := WithHealth(node, kept, FirstMap(HealthBackup.ByIdDesc(backups), HealthBackup.NodeOf)).backup;
      (b.Some? ==> b.value.nodeId == node.id && HealthBackup.HighestOfNode(backups, b.value))
      && (b.None? <==> forall k :: 0 <= k < |backups| ==> backups[k].nodeId != node.id)
  {
    HealthBackup.ByIdDescKeys(backups);
    if node.id in KeysOf(backups, HealthBackup.NodeOf) {
      HealthBackup.FirstWithHighest(backups, next, node.id);
    }
  }
}
