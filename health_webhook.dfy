/**
 * `POST /api/v1/health/webhook`: a node reports its services and metrics. The node row is
 * updated first (status, last-seen time, metrics), then one `health_checks` row per service is
 * inserted in a separate statement, with no transaction around the two. A body field that is
 * absent is `None`; `services` is `None` when it is not an array.
 */
module HealthWebhook {
  import opened Wrappers
  import opened HealthStore

  datatype Service = Service(name: Option<string>, status: Option<string>,
                             responseTimeMs: Option<int>, details: Option<Details>)

  datatype Payload = Payload(node: Option<string>, services: Option<seq<Service>>,
                             cpuPercent: Option<real>, ramPercent: Option<real>,
                             diskPercent: Option<real>, temperature: Option<real>)

  datatype Body = ErrorBody(error: string) | Accepted(node: string, services: nat, ts: int)

  datatype Reply = Reply(code: nat, body: Body)

  /** How the request ends: a JSON reply, or an exception out of the handler (a 500). */
  datatype Response = Replied(reply: Reply) | Thrown

  /** `services.every((s) => s.status === 'healthy')`. */
  function AllHealthy(services: seq<Service>): bool {
    services == [] || (services[0].status == Some("healthy") && AllHealthy(services[1..]))
  }

  /** `every` holds exactly when each service reports healthy, and so holds for no services. */
  lemma {:induction false} AllHealthyIff(services: seq<Service>)
    ensures AllHealthy(services) <==> forall k :: 0 <= k < |services| ==> services[k].status == Some("healthy")
  {
    if services != [] {
      AllHealthyIff(services[1..]);
      assert forall k :: 1 <= k < |services| ==> services[k] == services[1..][k - 1];
    }
  }

  /** The node row after the update: online iff all services are healthy, seen now, metrics as sent. */
  function Reported(node: Node, p: Payload, services: seq<Service>, now: int): (n: Node)
    ensures n.id == node.id && n.name == node.name && n.lastSeenAt == Some(now)
    ensures n.status == Some(Online) <==> AllHealthy(services)
    ensures n.status == Some(Offline) <==> !AllHealthy(services)
    ensures n.cpuPercent == p.cpuPercent && n.ramPercent == p.ramPercent
    ensures n.diskPercent == p.diskPercent && n.temperature == p.temperature
  {
    node.(status := Some(if AllHealthy(services) then Online else Offline), lastSeenAt := Some(now),
          cpuPercent := p.cpuPercent, ramPercent := p.ramPercent,
          diskPercent := p.diskPercent, temperature := p.temperature)
  }

  /** Whether a service's row satisfies the column constraints of `health_checks`. */
  predicate CheckFits(s: Service) {
    s.name.Some? && |s.name.value| <= 100 && s.status.Some? && |s.status.value| <= 20 && FitsInteger(s.responseTimeMs)
  }

  predicate AllFit(services: seq<Service>) {
    forall k :: 0 <= k < |services| ==> CheckFits(services[k])
  }

  /** The row one service becomes, numbered `id`. */
  function CheckRow(nodeId: int, s: Service, now: int, id: int): HealthCheck
    requires CheckFits(s)
  {
    HealthCheck(id, nodeId, s.name.value, s.status.value, s.responseTimeMs, now, s.details)
  }

  /** The rows `services.map(...)` inserts, numbered from `firstId` on. */
  function CheckRows(nodeId: int, services: seq<Service>, now: int, firstId: int): (rows: seq<HealthCheck>)
    requires AllFit(services)
    ensures |rows| == |services|
    ensures forall k :: 0 <= k < |services| ==> rows[k] == CheckRow(nodeId, services[k], now, firstId + k)
  {
    seq(|services|, k requires 0 <= k < |services| => CheckRow(nodeId, services[k], now, firstId + k))
  }

  /** The error body for a node name that is not in the table. */
  function NodeNotFound(name: string): string {
    "Node \"" + name + "\" not found"
  }

  /** Whether the body passes `!body.node || !Array.isArray(body.services)`. */
  predicate WellFormed(p: Payload) {
    p.node.Some? && p.node.value != "" && p.services.Some?
  }

  /**
   * The handler, with `now` the request's `new Date()`. The node row is written before the
   * checks; when the check insert violates a column constraint, the handler throws with the
   * node already updated and no check stored.
   */
  method Post(store: Store, p: Payload, now: int) returns (r: Response)
    requires store.Valid()
    modifies store
    ensures store.Valid()
    ensures store.backups == old(store.backups) && store.insights == old(store.insights)
    ensures !WellFormed(p) ==> r == Replied(Reply(400, ErrorBody("Missing node or services"))) && unchanged(store)
    ensures WellFormed(p) && FindNode(old(store.nodes), p.node.value).None? ==>
      r == Replied(Reply(404, ErrorBody(NodeNotFound(p.node.value)))) && unchanged(store)
    ensures WellFormed(p) && FindNode(old(store.nodes), p.node.value).Some? ==>
      var i := FindNode(old(store.nodes), p.node.value).value;
      var services := p.services.value;
      store.nodes == old(store.nodes)[i := Reported(old(store.nodes[i]), p, services, now)]
      && (if services == [] then
            store.checks == old(store.checks) && r == Replied(Reply(200, Accepted(p.node.value, 0, now)))
          else if AllFit(services) then
            store.checks == old(store.checks) + CheckRows(old(store.nodes[i]).id, services, now, old(store.nextCheckId))
            && r == Replied(Reply(200, Accepted(p.node.value, |services|, now)))
          else
            store.checks == old(store.checks) && r == Thrown)
  {
    if !WellFormed(p) {
      return Replied(Reply(400, ErrorBody("Missing node or services")));
    }
    var found := FindNode(store.nodes, p.node.value);
    if found.None? {
      return Replied(Reply(404, ErrorBody(NodeNotFound(p.node.value))));
    }
    var i := found.value;
    var node := store.nodes[i];
    var services := p.services.value;
    store.UpdateNode(i, Reported(node, p, services, now));
    if |services| > 0 {
      if !AllFit(services) {
        return Thrown;
      }
      store.InsertChecks(CheckRows(node.id, services, now, store.nextCheckId));
    }
    r := Replied(Reply(200, Accepted(p.node.value, |services|, now)));
  }

  /**
   * A report whose services are all healthy brings the node online and stores one check per
   * service; a single unhealthy one takes it offline.
   */
  method ReportOnline(store: Store, name: string, services: seq<Service>, now: int) returns (r: Response)
    requires store.Valid() && name != "" && FindNode(store.nodes, name).Some?
    requires services != [] && AllFit(services)
    modifies store
    ensures store.Valid()
    ensures var i := FindNode(old(store.nodes), name).value;
      |store.nodes| == |old(store.nodes)| && store.nodes[i].status == (if forall k :: 0 <= k < |services| ==> services[k].status == Some("healthy")
                                then Some(Online) else Some(Offline))
      && |store.checks| == |old(store.checks)| + |services|
      && r == Replied(Reply(200, Accepted(name, |services|, now)))
  {
    AllHealthyIff(services);
    r := Post(store, Payload(Some(name), Some(services), None, None, None, None), now);
  }
}
