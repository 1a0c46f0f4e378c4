/**
 * The knowledge-graph tables of the Palais database: the memory enums, the `memory_nodes`
 * and `memory_edges` rows with their column defaults, and the store's insert rules
 * (enum values, NOT NULL, the 100-character varchar columns and the two foreign keys).
 * The tables live in `MemoryDb`, with the serial id counters.
 */
module MemorySchema {
  import opened Wrappers

  datatype NodeType = Episodic | Semantic | Procedural
  datatype EntityType = AgentEntity | ServiceEntity | TaskEntity | ErrorEntity | DeploymentEntity | DecisionEntity
  datatype Relation = CausedBy | ResolvedBy | RelatedTo | LearnedFrom | Supersedes
  datatype Creator = ByUser | ByAgent | BySystem

  function NodeTypeLabel(t: NodeType): string {
    match t
    case Episodic => "episodic"
    case Semantic => "semantic"
    case Procedural => "procedural"
  }

  function EntityTypeLabel(t: EntityType): string {
    match t
    case AgentEntity => "agent"
    case ServiceEntity => "service"
    case TaskEntity => "task"
    case ErrorEntity => "error"
    case DeploymentEntity => "deployment"
    case DecisionEntity => "decision"
  }

  function RelationLabel(r: Relation): string {
    match r
    case CausedBy => "caused_by"
    case ResolvedBy => "resolved_by"
    case RelatedTo => "related_to"
    case LearnedFrom => "learned_from"
    case Supersedes => "supersedes"
  }

  function CreatorLabel(c: Creator): string {
    match c
    case ByUser => "user"
    case ByAgent => "agent"
    case BySystem => "system"
  }

  /** How the store reads a `memory_node_type` value; anything else is rejected. */
  function ParseNodeType(s: string): (r: Option<NodeType>)
    ensures r.Some? ==> NodeTypeLabel(r.value) == s
  {
    if s == "episodic" then Some(Episodic)
    else if s == "semantic" then Some(Semantic)
    else if s == "procedural" then Some(Procedural)
    else None
  }

  function ParseEntityType(s: string): (r: Option<EntityType>)
    ensures r.Some? ==> EntityTypeLabel(r.value) == s
  {
    if s == "agent" then Some(AgentEntity)
    else if s == "service" then Some(ServiceEntity)
    else if s == "task" then Some(TaskEntity)
    else if s == "error" then Some(ErrorEntity)
    else if s == "deployment" then Some(DeploymentEntity)
    else if s == "decision" then Some(DecisionEntity)
    else None
  }

  function ParseCreator(s: string): (r: Option<Creator>)
    ensures r.Some? ==> CreatorLabel(r.value) == s
  {
    if s == "user" then Some(ByUser)
    else if s == "agent" then Some(ByAgent)
    else if s == "system" then Some(BySystem)
    else None
  }

  /** A node type value is accepted exactly when it is one of the three labels. */
  lemma NodeTypeLabels(s: string)
    ensures ParseNodeType(s).Some? <==> s in {"episodic", "semantic", "procedural"}
    ensures forall t :: ParseNodeType(NodeTypeLabel(t)) == Some(t)
  {
  }

  /** An edge relation is one of the five labels. */
  lemma RelationLabels(r: Relation)
    ensures RelationLabel(r) in {"caused_by", "resolved_by", "related_to", "learned_from", "supersedes"}
  {
  }

  datatype MemoryNode = MemoryNode(
    id: int,
    nodeType: NodeType,
    content: string,
    summary: Option<string>,
    entityType: Option<EntityType>,
    entityId: Option<string>,
    tags: seq<string>,
    metadata: Option<string>,
    embeddingId: Option<string>,
    createdAt: int,
    createdBy: Creator)

  datatype MemoryEdge = MemoryEdge(id: int, source: int, target: int, relation: Relation, weight: real, createdAt: int)

  /**
   * The values an INSERT into `memory_nodes` supplies. Enum columns carry the raw
   * strings the callers pass; an absent field takes the column default.
   */
  datatype NodeInsert = NodeInsert(
    nodeType: string,
    content: Option<string>,
    summary: Option<string>,
    entityType: Option<string>,
    entityId: Option<string>,
    tags: Option<seq<string>>,
    metadata: Option<string>,
    createdBy: Option<string>)

  /** Length limit of the `varchar(100)` columns `entity_id` and `embedding_id`. */
  const VarcharLimit: nat := 100
  const DefaultEdgeWeight: real := 0.5

  /** Whether the store accepts a node insert: enum labels, NOT NULL content, varchar length. */
  predicate NodeInsertAccepted(v: NodeInsert) {
    ParseNodeType(v.nodeType).Some?
    && v.content.Some?
    && (v.entityType.None? || ParseEntityType(v.entityType.value).Some?)
    && (v.entityId.None? || |v.entityId.value| <= VarcharLimit)
    && (v.createdBy.None? || ParseCreator(v.createdBy.value).Some?)
  }

  /** The row the store creates for an accepted insert, with its defaults filled in. */
  function NodeRow(v: NodeInsert, id: int, now: int): (n: MemoryNode)
    requires NodeInsertAccepted(v)
    ensures n.id == id && n.createdAt == now && n.embeddingId.None?
    ensures NodeTypeLabel(n.nodeType) == v.nodeType && n.content == v.content.value
    ensures n.tags == (if v.tags.Some? then v.tags.value else [])
    ensures n.createdBy == (if v.createdBy.Some? then ParseCreator(v.createdBy.value).value else BySystem)
  {
    MemoryNode(
      id, ParseNodeType(v.nodeType).value, v.content.value, v.summary,
      if v.entityType.Some? then ParseEntityType(v.entityType.value) else None,
      v.entityId, v.tags.GetOr([]), v.metadata, None, now,
      if v.createdBy.Some? then ParseCreator(v.createdBy.value).value else BySystem)
  }

  /** A node inserted with only its type and content gets tags [] and creator system. */
  lemma NodeDefaults(t: NodeType, content: string, id: int, now: int)
    ensures var n := NodeRow(NodeInsert(NodeTypeLabel(t), Some(content), None, None, None, None, None, None), id, now);
      n.tags == [] && n.createdBy == BySystem && n.summary.None? && n.entityType.None?
      && n.entityId.None? && n.embeddingId.None? && n.nodeType == t
  {
  }

  // ------------------------------------------------------------------ lookups

  predicate HasNode(nodes: seq<MemoryNode>, id: int) {
    exists i :: 0 <= i < |nodes| && nodes[i].id == id
  }

  function FindNode(nodes: seq<MemoryNode>, id: int): (r: Option<MemoryNode>)
    ensures r.Some? <==> HasNode(nodes, id)
    ensures r.Some? ==> r.value in nodes && r.value.id == id
  {
    if nodes == [] then None
    else if nodes[0].id == id then Some(nodes[0])
    else
      var r := FindNode(nodes[1..], id);
      assert HasNode(nodes, id) ==> nodes[0].id == id || HasNode(nodes[1..], id) by {
        if HasNode(nodes, id) && nodes[0].id != id {
          var i :| 0 <= i < |nodes| && nodes[i].id == id;
          assert nodes[1..][i - 1].id == id;
        }
      }
      assert HasNode(nodes[1..], id) ==> HasNode(nodes, id) by {
        if HasNode(nodes[1..], id) {
          var i :| 0 <= i < |nodes[1..]| && nodes[1..][i].id == id;
          assert nodes[i + 1].id == id;
        }
      }
      r
  }

  /** The rows a query `WHERE id IN (ids)` returns, in table order. */
  function RowsWithIds(nodes: seq<MemoryNode>, ids: seq<int>): (r: seq<MemoryNode>)
    ensures |r| <= |nodes|
  {
    if nodes == [] then []
    else (if nodes[0].id in ids then [nodes[0]] else []) + RowsWithIds(nodes[1..], ids)
  }

  lemma {:induction false} RowsWithIdsMembers(nodes: seq<MemoryNode>, ids: seq<int>, n: MemoryNode)
    ensures n in RowsWithIds(nodes, ids) <==> n in nodes && n.id in ids
    decreases |nodes|
  {
    if nodes != [] {
      RowsWithIdsMembers(nodes[1..], ids, n);
      assert nodes == [nodes[0]] + nodes[1..];
    }
  }

  /** Looking an asked-for id up among the fetched rows finds what the whole table holds. */
  lemma {:induction false} RowsWithIdsLookup(nodes: seq<MemoryNode>, ids: seq<int>, nid: int)
    requires nid in ids
    ensures FindNode(RowsWithIds(nodes, ids), nid) == FindNode(nodes, nid)
    decreases |nodes|
  {
    if nodes != [] {
      var f := RowsWithIds(nodes, ids);
      if nodes[0].id == nid {
        assert f[0] == nodes[0];
      } else if nodes[0].id in ids {
        RowsWithIdsLookup(nodes[1..], ids, nid);
        assert f == [nodes[0]] + RowsWithIds(nodes[1..], ids);
        assert f[1..] == RowsWithIds(nodes[1..], ids);
        assert FindNode(f, nid) == FindNode(f[1..], nid);
      } else {
        RowsWithIdsLookup(nodes[1..], ids, nid);
        assert f == RowsWithIds(nodes[1..], ids);
      }
    }
  }

  /** Ids strictly increase along the table: they are unique, as a serial primary key makes them. */
  predicate IdsIncreasing(nodes: seq<MemoryNode>) {
    forall i, j :: 0 <= i < j < |nodes| ==> nodes[i].id < nodes[j].id
  }

  predicate EdgeIdsIncreasing(edges: seq<MemoryEdge>) {
    forall i, j :: 0 <= i < j < |edges| ==> edges[i].id < edges[j].id
  }

  /** Both foreign keys of every edge reference a node of the table. */
  predicate EdgesReferenceNodes(nodes: seq<MemoryNode>, edges: seq<MemoryEdge>) {
    forall i :: 0 <= i < |edges| ==> HasNode(nodes, edges[i].source) && HasNode(nodes, edges[i].target)
  }

  /**
   * Whether the store accepts an edge insert: both foreign keys must resolve. There is
   * no uniqueness constraint and no check against source == target.
   */
  predicate EdgeInsertAccepted(nodes: seq<MemoryNode>, source: int, target: int) {
    HasNode(nodes, source) && HasNode(nodes, target)
  }

  /** A self-loop, and a second edge between the same nodes, are both accepted. */
  lemma EdgesAllowLoopsAndDuplicates(nodes: seq<MemoryNode>, edges: seq<MemoryEdge>, k: nat)
    requires EdgesReferenceNodes(nodes, edges) && k < |edges|
    ensures EdgeInsertAccepted(nodes, edges[k].source, edges[k].source)
    ensures EdgeInsertAccepted(nodes, edges[k].source, edges[k].target)
  {
  }

  /** `UPDATE memory_nodes SET embedding_id = key WHERE id = id` as a value. */
  function WithEmbeddingId(nodes: seq<MemoryNode>, id: int, key: string): (r: seq<MemoryNode>)
    ensures |r| == |nodes|
    ensures forall i :: 0 <= i < |nodes| ==>
      r[i] == if nodes[i].id == id then nodes[i].(embeddingId := Some(key)) else nodes[i]
  {
    seq(|nodes|, i requires 0 <= i < |nodes| =>
      if nodes[i].id == id then nodes[i].(embeddingId := Some(key)) else nodes[i])
  }

  lemma WithEmbeddingIdKeepsIds(nodes: seq<MemoryNode>, id: int, key: string, x: int)
    ensures HasNode(WithEmbeddingId(nodes, id, key), x) <==> HasNode(nodes, x)
  {
    var r := WithEmbeddingId(nodes, id, key);
    if HasNode(nodes, x) {
      var i :| 0 <= i < |nodes| && nodes[i].id == x;
      assert r[i].id == x;
    }
    if HasNode(r, x) {
      var i :| 0 <= i < |r| && r[i].id == x;
      assert nodes[i].id == x;
    }
  }

  /** The update of the row just appended touches that row only, ids being unique. */
  lemma WithEmbeddingIdOfLast(nodes: seq<MemoryNode>, n: MemoryNode, key: string)
    requires forall i :: 0 <= i < |nodes| ==> nodes[i].id < n.id
    ensures WithEmbeddingId(nodes + [n], n.id, key) == nodes + [n.(embeddingId := Some(key))]
  {
    var r := WithEmbeddingId(nodes + [n], n.id, key);
    assert forall i :: 0 <= i < |nodes| ==> r[i] == nodes[i] by {
      forall i | 0 <= i < |nodes| ensures r[i] == nodes[i] {
        assert (nodes + [n])[i] == nodes[i];
      }
    }
    assert r[|nodes|] == n.(embeddingId := Some(key));
  }

  /** The two memory tables and their serial counters. */
  class MemoryDb {
    var nodes: seq<MemoryNode>
    var edges: seq<MemoryEdge>
    var nextNodeId: int
    var nextEdgeId: int

    ghost predicate Valid()
      reads this
    {
      IdsIncreasing(nodes) && (forall i :: 0 <= i < |nodes| ==> nodes[i].id < nextNodeId)
      && EdgeIdsIncreasing(edges) && (forall i :: 0 <= i < |edges| ==> edges[i].id < nextEdgeId)
      && EdgesReferenceNodes(nodes, edges)
    }

    constructor ()
      ensures Valid() && nodes == [] && edges == [] && nextNodeId == 1 && nextEdgeId == 1
    {
      nodes, edges, nextNodeId, nextEdgeId := [], [], 1, 1;
    }

    /** INSERT INTO memory_nodes ... RETURNING *: the new row, or None when the store rejects the values. */
    method InsertNode(v: NodeInsert, now: int) returns (r: Option<MemoryNode>)
      requires Valid()
      modifies this
      ensures Valid() && edges == old(edges) && nextEdgeId == old(nextEdgeId)
      ensures r.Some? <==> NodeInsertAccepted(v)
      ensures r.Some? ==> (r.value == NodeRow(v, old(nextNodeId), now)
                           && nodes == old(nodes) + [r.value] && nextNodeId == old(nextNodeId) + 1)
      ensures r.None? ==> nodes == old(nodes) && nextNodeId == old(nextNodeId)
    {
      if NodeInsertAccepted(v) {
        var n := NodeRow(v, nextNodeId, now);
        nodes := nodes + [n];
        nextNodeId := nextNodeId + 1;
        r := Some(n);
        assert forall id :: HasNode(old(nodes), id) ==> HasNode(nodes, id) by {
          forall id | HasNode(old(nodes), id) ensures HasNode(nodes, id) {
            var i :| 0 <= i < |old(nodes)| && old(nodes)[i].id == id;
            assert nodes[i].id == id;
          }
        }
      } else {
        r := None;
      }
    }

    /**
     * INSERT INTO memory_edges: accepted exactly when both ends exist (the two foreign
     * keys); no uniqueness and no self-loop check. An absent weight takes the default 0.5.
     */
    method InsertEdge(source: int, target: int, relation: Relation, weight: Option<real>, now: int)
      returns (r: Option<MemoryEdge>)
      requires Valid()
      modifies this
      ensures Valid() && nodes == old(nodes) && nextNodeId == old(nextNodeId)
      ensures r.Some? <==> EdgeInsertAccepted(nodes, source, target)
      ensures r.Some? ==> (r.value == MemoryEdge(old(nextEdgeId), source, target, relation, weight.GetOr(DefaultEdgeWeight), now)
                           && edges == old(edges) + [r.value] && nextEdgeId == old(nextEdgeId) + 1)
      ensures r.None? ==> edges == old(edges) && nextEdgeId == old(nextEdgeId)
    {
      if EdgeInsertAccepted(nodes, source, target) {
        var e := MemoryEdge(nextEdgeId, source, target, relation, weight.GetOr(DefaultEdgeWeight), now);
        edges := edges + [e];
        nextEdgeId := nextEdgeId + 1;
        r := Some(e);
      } else {
        r := None;
      }
    }

    /** UPDATE memory_nodes SET embedding_id = key WHERE id = id (no row matched is not an error). */
    method SetEmbeddingId(id: int, key: string)
      requires Valid()
      modifies this
      ensures Valid() && edges == old(edges) && nextNodeId == old(nextNodeId) && nextEdgeId == old(nextEdgeId)
      ensures nodes == WithEmbeddingId(old(nodes), id, key)
    {
      forall x ensures HasNode(WithEmbeddingId(nodes, id, key), x) <==> HasNode(nodes, x) {
        WithEmbeddingIdKeepsIds(nodes, id, key, x);
      }
      nodes := WithEmbeddingId(nodes, id, key);
    }
  }
}
