/**
 * The node route `/api/v1/memory/nodes`: POST creates a node, embeds it, upserts its
 * point and enriches it; GET lists the newest nodes, optionally of one type.
 */
module MemoryNodesRoute {
  import opened Wrappers
  import opened JsText
  import opened MemorySchema
  import opened VectorIndex
  import MemoryEnrich
  import Sorting

  /** The JSON body's fields, absent (or null) as None. */
  datatype CreateBody = CreateBody(
    nodeType: Option<string>, content: Option<string>, summary: Option<string>,
    entityType: Option<string>, entityId: Option<string>, tags: Option<seq<string>>,
    metadata: Option<string>, createdBy: Option<string>)

  /** 400 for a missing type or content; 500 for an exception the handler does not catch; 201 with the node. */
  datatype CreateResponse = BadRequest | ServerError | CreatedNode(node: MemoryNode)

  predicate Truthy(f: Option<string>) { f.Some? && f.value != "" }

  /** The insert: absent optional fields become null, tags default to [] and the creator to system. */
  function CreateInsert(b: CreateBody): (v: NodeInsert)
    requires Truthy(b.nodeType) && Truthy(b.content)
    ensures v.tags == Some(b.tags.GetOr([])) && v.createdBy == Some(b.createdBy.GetOr("system"))
    ensures v.summary == b.summary && v.entityType == b.entityType && v.entityId == b.entityId && v.metadata == b.metadata
  {
    NodeInsert(b.nodeType.value, b.content, b.summary, b.entityType, b.entityId,
               Some(b.tags.GetOr([])), b.metadata, Some(b.createdBy.GetOr("system")))
  }

  /** `summary ?? content`: an empty summary is still the summary. */
  function EmbedText(b: CreateBody): (t: string)
    requires b.content.Some?
    ensures b.summary.Some? ==> t == b.summary.value
    ensures b.summary.None? ==> t == b.content.value
  {
    b.summary.GetOr(b.content.value)
  }

  /** A body with only type and content is stored with no summary, no entity, tags [] and creator system. */
  lemma CreateDefaults(t: NodeType, content: string, id: int, now: int)
    requires content != ""
    ensures var b := CreateBody(Some(NodeTypeLabel(t)), Some(content), None, None, None, None, None, None);
      NodeInsertAccepted(CreateInsert(b))
      && var n := NodeRow(CreateInsert(b), id, now);
      n.nodeType == t && n.summary.None? && n.entityType.None? && n.entityId.None? && n.metadata.None?
      && n.tags == [] && n.createdBy == BySystem && n.embeddingId.None?
  {
    assert ParseCreator("system") == Some(BySystem);
    NodeTypeLabels(NodeTypeLabel(t));
  }

  /**
   * POST: validation, the insert, then, with an embedding of `summary ?? content`, the
   * upsert of point "node-<id>" (payload `nodeId`), the embedding id and enrichment, whose
   * failure is only logged. The reply always carries embeddingId "node-<id>", also when
   * the embedding failed and the stored row keeps null.
   */
  method Create(db: MemoryDb, index: Index, b: CreateBody, embed: Embedder, accept: UpsertAcceptor,
                search: Searcher, now: int) returns (resp: CreateResponse)
    requires db.Valid()
    modifies db, index
    ensures db.Valid() && db.nextEdgeId >= old(db.nextEdgeId)
    ensures resp.BadRequest? <==> !Truthy(b.nodeType) || !Truthy(b.content)
    ensures resp.BadRequest? || (!resp.BadRequest? && !NodeInsertAccepted(CreateInsert(b))) ==>
      db.nodes == old(db.nodes) && db.edges == old(db.edges) && db.nextNodeId == old(db.nextNodeId)
      && db.nextEdgeId == old(db.nextEdgeId) && index.points == old(index.points)
    ensures !resp.BadRequest? ==>
      var id := old(db.nextNodeId);
      var v := embed(EmbedText(b));
      var indexed := v.Some? && accept(NodeKey(id));
      if !NodeInsertAccepted(CreateInsert(b)) then resp.ServerError?
      else
        var row := NodeRow(CreateInsert(b), id, now);
        db.nextNodeId == id + 1
        && (resp.ServerError? <==> v.Some? && !accept(NodeKey(id)))
        && (resp.CreatedNode? ==> resp.node == row.(embeddingId := Some(NodeKey(id))))
        && |db.edges| >= |old(db.edges)| && db.edges[..|old(db.edges)|] == old(db.edges)
        && (forall j :: |old(db.edges)| <= j < |db.edges| ==> db.edges[j].relation == RelatedTo && db.edges[j].source == id)
        && (if indexed then
              db.nodes == old(db.nodes) + [row.(embeddingId := Some(NodeKey(id)))]
              && index.points == old(index.points)[NodeKey(id) := Point(v.value, map[NodeIdField := id])]
            else
              db.nodes == old(db.nodes) + [row] && db.edges == old(db.edges) && index.points == old(index.points))
  {
    if !Truthy(b.nodeType) || !Truthy(b.content) {
      return BadRequest;
    }
    var n := db.InsertNode(CreateInsert(b), now);
    if n.None? {
      return ServerError;
    }
    var embedding := embed(EmbedText(b));
    var key := NodeKey(n.value.id);
    if embedding.Some? {
      var accepted := accept(key);
      index.Upsert(key, embedding.value, map[NodeIdField := n.value.id], accepted);
      if !accepted {
        return ServerError;
      }
      ghost var nodes := db.nodes;
      MemoryEnrich.KeyNode(db, index.points, n.value, embedding.value, search, now);
      assert nodes[..|nodes| - 1] == old(db.nodes);
    }
    resp := CreatedNode(n.value.(embeddingId := Some(key)));
  }

  // ------------------------------------------------------------------ GET

  const DefaultLimit: string := "50"
  const MaxLimit: int := 200

  /**
   * `Math.min(parseInt(limit ?? '50'), 200)`: None when the parameter does not parse
   * (NaN), in which case the store rejects the query.
   */
  function Limit(param: Option<string>): (r: Option<int>)
    ensures param.None? ==> r == Some(50)
    ensures r.Some? ==> r.value <= MaxLimit
  {
    assert NatToString(50) == NatToString(5) + [DigitChar(0)] == "50";
    ParseIntOfNat(50);
    match ParseInt(param.GetOr(DefaultLimit))
    case None => None
    case Some(n) => Some(if n < MaxLimit then n else MaxLimit)
  }

  function CreatedAtKey(n: MemoryNode): real { n.createdAt as real }

  /** `ORDER BY created_at DESC`, ties in table order. */
  function Newest(nodes: seq<MemoryNode>): seq<MemoryNode> {
    Sorting.SortDesc(nodes, CreatedAtKey)
  }

  function OfType(nodes: seq<MemoryNode>, t: string): (r: seq<MemoryNode>)
    ensures |r| <= |nodes|
  {
    if nodes == [] then []
    else (if NodeTypeLabel(nodes[0].nodeType) == t then [nodes[0]] else []) + OfType(nodes[1..], t)
  }

  /**
   * GET: the newest `limit` nodes, then the type filter, so the filter can return fewer
   * nodes of the type than exist. None is the failed query (a limit that is NaN or negative).
   */
  function List(nodes: seq<MemoryNode>, limitParam: Option<string>, typeParam: Option<string>): (r: Option<seq<MemoryNode>>)
  {
    match Limit(limitParam)
    case None => None
    case Some(n) =>
      if n < 0 then None
      else
        var window := Newest(nodes)[..if n < |nodes| then n else |nodes|];
        Some(if Truthy(typeParam) then OfType(window, typeParam.value) else window)
  }

  lemma {:induction false} OfTypeMembers(nodes: seq<MemoryNode>, t: string, x: MemoryNode)
    ensures x in OfType(nodes, t) <==> x in nodes && NodeTypeLabel(x.nodeType) == t
    decreases |nodes|
  {
    if nodes != [] {
      OfTypeMembers(nodes[1..], t, x);
      assert nodes == [nodes[0]] + nodes[1..];
    }
  }

  /**
   * What GET returns with a type: at most min(limit, 200) nodes, exactly those among the
   * newest `limit` that have that type.
   */
  lemma ListSpec(nodes: seq<MemoryNode>, limitParam: Option<string>, t: string, x: MemoryNode)
    requires List(nodes, limitParam, Some(t)).Some? && t != ""
    ensures var r := List(nodes, limitParam, Some(t)).value;
      var n := Limit(limitParam).value;
      |r| <= n && n <= MaxLimit
      && (x in r <==> x in Newest(nodes)[..if n < |nodes| then n else |nodes|] && NodeTypeLabel(x.nodeType) == t)
  {
    var n := Limit(limitParam).value;
    var window := Newest(nodes)[..if n < |nodes| then n else |nodes|];
    OfTypeMembers(window, t, x);
  }

  /** Without a type the whole newest window is returned, newest first, members of the table. */
  lemma ListWindow(nodes: seq<MemoryNode>, limitParam: Option<string>)
    requires List(nodes, limitParam, None).Some?
    ensures var r := List(nodes, limitParam, None).value;
      |r| <= Limit(limitParam).value && Sorting.SortedDesc(r, CreatedAtKey)
      && forall k :: 0 <= k < |r| ==> r[k] in nodes
  {
    var r := List(nodes, limitParam, None).value;
    var s := Newest(nodes);
    assert r == s[..|r|];
    forall k | 0 <= k < |r| ensures r[k] in nodes {
      assert r[k] == s[k];
      Sorting.SortDescMembers(nodes, CreatedAtKey, s[k]);
    }
  }
}
