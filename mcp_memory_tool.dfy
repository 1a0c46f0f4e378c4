/**
 * The MCP memory tool `handleMemoryTool`: `search` (vector ids first, then full-text
 * rows not already included), `recall` (a node and its edges) and `store` (an insert by
 * the agent, then an embedding written under a random point id).
 */
module McpMemoryTool {
  import opened Wrappers
  import opened JsText
  import opened MemorySchema
  import opened VectorIndex

  /** A tool's reply: its value, or a thrown error with the tool's own message (None for one the store raised). */
  datatype Reply<T> = Ok(value: T) | Thrown(message: Option<string>)

  /**
   * The tool's own vector search request (`points/search` without a score threshold):
   * the top hits, or None for a non-OK answer.
   */
  type VectorSearch = (map<string, Point>, Vector, int) -> Option<seq<Hit>>

  /** The rows `to_tsvector(content) @@ plainto_tsquery(query)` matches, in the order the store returns them. */
  type FullText = (seq<MemoryNode>, string) -> seq<MemoryNode>

  /** The answer to the point PUT: accepted, refused with an HTTP error status, or no answer at all. */
  datatype PutAnswer = PutStored | PutRefused | PutUnreachable

  type PointWriter = string -> PutAnswer

  /** The fields of `args` the three methods read; `entityType` is advertised for search but never read. */
  datatype Args = Args(
    query: string, limit: Option<int>, entityType: Option<string>, nodeId: int,
    nodeType: Option<string>, content: Option<string>, summary: Option<string>,
    entityId: Option<string>, tags: Option<seq<string>>)

  datatype Value = Nodes(nodes: seq<MemoryNode>) | NodeWithEdges(node: MemoryNode, edges: seq<MemoryEdge>) | StoredNode(node: MemoryNode)

  const DefaultLimit: int := 10

  // ------------------------------------------------------------------ search

  /** `args.limit || 10`: an absent or zero limit becomes 10. */
  function EffectiveLimit(limit: Option<int>): (r: int)
    ensures r != 0
    ensures limit.None? || limit.value == 0 ==> r == DefaultLimit
    ensures limit.Some? && limit.value != 0 ==> r == limit.value
  {
    if limit.None? || limit.value == 0 then DefaultLimit else limit.value
  }

  /** `.map(r => r.payload?.node_id).filter(Boolean)`: the non-zero `node_id` fields, in hit order. */
  function NodeIdsOf(hits: seq<Hit>): (r: seq<int>)
    ensures |r| <= |hits|
  {
    if hits == [] then []
    else
      var p := hits[0].payload;
      (if SnakeNodeIdField in p && p[SnakeNodeIdField] != 0 then [p[SnakeNodeIdField]] else []) + NodeIdsOf(hits[1..])
  }

  /** `searchQdrant`: the node ids of the top hits, [] when the embedding or the search fails. */
  function SearchQdrant(points: map<string, Point>, query: string, limit: int,
                        embed: Embedder, vsearch: VectorSearch): (r: seq<int>)
    ensures embed(query).None? ==> r == []
    ensures embed(query).Some? && vsearch(points, embed(query).value, limit).None? ==> r == []
    ensures 0 !in r
  {
    match embed(query)
    case None => []
    case Some(v) =>
      match vsearch(points, v, limit)
      case None => []
      case Some(hits) => NodeIdsNonZero(hits); NodeIdsOf(hits)
  }

  lemma {:induction false} NodeIdsNonZero(hits: seq<Hit>)
    ensures 0 !in NodeIdsOf(hits)
    decreases |hits|
  {
    if hits != [] {
      NodeIdsNonZero(hits[1..]);
    }
  }

  function IdSet(ns: seq<MemoryNode>): set<int> {
    set n | n in ns :: n.id
  }

  /** The rows of `text` whose id is not in `seen`, in their order. */
  function TextOnly(text: seq<MemoryNode>, seen: set<int>): (r: seq<MemoryNode>)
    ensures |r| <= |text|
  {
    if text == [] then []
    else
      var last := text[|text| - 1];
      TextOnly(text[..|text| - 1], seen) + (if last.id in seen then [] else [last])
  }

  function Prefix<T>(s: seq<T>, n: nat): (r: seq<T>)
    ensures |r| <= n && |r| <= |s| && r == s[..|r|]
    ensures |s| <= n ==> r == s
  {
    s[..if n < |s| then n else |s|]
  }

  lemma IdSetSnoc(ns: seq<MemoryNode>, n: MemoryNode)
    ensures IdSet(ns + [n]) == IdSet(ns) + {n.id}
  {
    assert forall m :: m in ns + [n] <==> m in ns || m == n;
  }

  /** The merge loop: every vector row (recording its id), then each full-text row whose id was not recorded. */
  method Merge(vectorNodes: seq<MemoryNode>, textResults: seq<MemoryNode>) returns (results: seq<MemoryNode>)
    ensures results == vectorNodes + TextOnly(textResults, IdSet(vectorNodes))
  {
    var seen: set<int> := {};
    results := [];
    var i := 0;
    while i < |vectorNodes|
      invariant 0 <= i <= |vectorNodes|
      invariant seen == IdSet(vectorNodes[..i]) && results == vectorNodes[..i]
    {
      assert vectorNodes[..i + 1] == vectorNodes[..i] + [vectorNodes[i]];
      IdSetSnoc(vectorNodes[..i], vectorNodes[i]);
      seen := seen + {vectorNodes[i].id};
      results := results + [vectorNodes[i]];
      i := i + 1;
    }
    assert vectorNodes[..i] == vectorNodes;
    var j := 0;
    while j < |textResults|
      invariant 0 <= j <= |textResults|
      invariant results == vectorNodes + TextOnly(textResults[..j], seen)
    {
      assert textResults[..j + 1][..j] == textResults[..j];
      if textResults[j].id !in seen {
        results := results + [textResults[j]];
      }
      j := j + 1;
    }
    assert textResults[..j] == textResults;
  }

  /**
   * What search returns. A negative limit makes the full-text query fail; otherwise the
   * vector rows (in table order), then the full-text-only rows, cut to the limit.
   */
  function SearchResult(nodes: seq<MemoryNode>, points: map<string, Point>, args: Args,
                        embed: Embedder, vsearch: VectorSearch, fts: FullText): (r: Reply<seq<MemoryNode>>)
    ensures r.Thrown? <==> EffectiveLimit(args.limit) < 0
    ensures r.Ok? ==> |r.value| <= EffectiveLimit(args.limit)
  {
    var limit := EffectiveLimit(args.limit);
    if limit < 0 then Thrown(None)
    else
      var ids := SearchQdrant(points, args.query, limit, embed, vsearch);
      var text := Prefix(fts(nodes, args.query), limit);
      var vectorNodes := if |ids| > 0 then RowsWithIds(nodes, ids) else [];
      Ok(Prefix(vectorNodes + TextOnly(text, IdSet(vectorNodes)), limit))
  }

  method Search(nodes: seq<MemoryNode>, points: map<string, Point>, args: Args,
                embed: Embedder, vsearch: VectorSearch, fts: FullText) returns (r: Reply<seq<MemoryNode>>)
    ensures r == SearchResult(nodes, points, args, embed, vsearch, fts)
  {
    var limit := EffectiveLimit(args.limit);
    var ids := SearchQdrant(points, args.query, limit, embed, vsearch);
    if limit < 0 {
      return Thrown(None);
    }
    var text := Prefix(fts(nodes, args.query), limit);
    var vectorNodes := [];
    if |ids| > 0 {
      vectorNodes := RowsWithIds(nodes, ids);
    }
    var results := Merge(vectorNodes, text);
    r := Ok(Prefix(results, limit));
  }

  // ------------------------------------------------------------------ search properties

  lemma {:induction false} TextOnlyMembers(text: seq<MemoryNode>, seen: set<int>, x: MemoryNode)
    ensures x in TextOnly(text, seen) <==> x in text && x.id !in seen
    decreases |text|
  {
    if text != [] {
      TextOnlyMembers(text[..|text| - 1], seen, x);
      assert text == text[..|text| - 1] + [text[|text| - 1]];
    }
  }

  lemma {:induction false} TextOnlyNothingSeen(text: seq<MemoryNode>)
    ensures TextOnly(text, {}) == text
    decreases |text|
  {
    if text != [] {
      TextOnlyNothingSeen(text[..|text| - 1]);
      assert text == text[..|text| - 1] + [text[|text| - 1]];
    }
  }

  predicate DistinctIds(s: seq<MemoryNode>) {
    forall i, j :: 0 <= i < j < |s| ==> s[i].id != s[j].id
  }

  lemma {:induction false} TextOnlyDistinct(text: seq<MemoryNode>, seen: set<int>)
    requires DistinctIds(text)
    ensures DistinctIds(TextOnly(text, seen))
    decreases |text|
  {
    if text != [] {
      var init := text[..|text| - 1];
      var last := text[|text| - 1];
      TextOnlyDistinct(init, seen);
      var a := TextOnly(init, seen);
      forall i | 0 <= i < |a| ensures a[i].id != last.id {
        TextOnlyMembers(init, seen, a[i]);
        var k :| 0 <= k < |init| && init[k] == a[i];
        assert text[k] == init[k];
      }
    }
  }

  /** With duplicate-free inputs the merge has no node twice. */
  lemma MergedDistinct(vectorNodes: seq<MemoryNode>, text: seq<MemoryNode>)
    requires DistinctIds(vectorNodes) && DistinctIds(text)
    ensures DistinctIds(vectorNodes + TextOnly(text, IdSet(vectorNodes)))
  {
    var t := TextOnly(text, IdSet(vectorNodes));
    var m := vectorNodes + t;
    TextOnlyDistinct(text, IdSet(vectorNodes));
    forall i, j | 0 <= i < j < |m| ensures m[i].id != m[j].id {
      if i < |vectorNodes| <= j {
        TextOnlyMembers(text, IdSet(vectorNodes), m[j]);
        assert m[i] == vectorNodes[i];
        assert m[j] == t[j - |vectorNodes|];
      }
    }
  }

  lemma {:induction false} RowsWithIdsIncreasing(nodes: seq<MemoryNode>, ids: seq<int>)
    requires IdsIncreasing(nodes)
    ensures DistinctIds(RowsWithIds(nodes, ids))
    decreases |nodes|
  {
    if nodes != [] {
      RowsWithIdsIncreasing(nodes[1..], ids);
      var rest := RowsWithIds(nodes[1..], ids);
      forall k | 0 <= k < |rest| ensures nodes[0].id < rest[k].id {
        RowsWithIdsMembers(nodes[1..], ids, rest[k]);
        var i :| 0 <= i < |nodes[1..]| && nodes[1..][i] == rest[k];
        assert nodes[i + 1] == rest[k];
      }
    }
  }

  /** The rows the IN query returns for the vector ids, [] when there are none. */
  function VectorRows(nodes: seq<MemoryNode>, points: map<string, Point>, args: Args,
                      embed: Embedder, vsearch: VectorSearch): seq<MemoryNode>
  {
    var ids := SearchQdrant(points, args.query, EffectiveLimit(args.limit), embed, vsearch);
    if |ids| > 0 then RowsWithIds(nodes, ids) else []
  }

  /** The cut of a merge: a prefix of the vector rows, then full-text rows none of them matched. */
  lemma MergedPrefix(vectorNodes: seq<MemoryNode>, text: seq<MemoryNode>, limit: nat)
    ensures var r := Prefix(vectorNodes + TextOnly(text, IdSet(vectorNodes)), limit);
      (forall k :: 0 <= k < |vectorNodes| && k < |r| ==> r[k] == vectorNodes[k])
      && (forall k :: |vectorNodes| <= k < |r| ==> r[k] in text && r[k].id !in IdSet(vectorNodes))
      && (DistinctIds(vectorNodes) && DistinctIds(text) ==> DistinctIds(r))
  {
    var t := TextOnly(text, IdSet(vectorNodes));
    var m := vectorNodes + t;
    var r := Prefix(m, limit);
    forall k | |vectorNodes| <= k < |r| ensures r[k] in text && r[k].id !in IdSet(vectorNodes) {
      assert r[k] == t[k - |vectorNodes|];
      TextOnlyMembers(text, IdSet(vectorNodes), r[k]);
    }
    if DistinctIds(vectorNodes) && DistinctIds(text) {
      MergedDistinct(vectorNodes, text);
    }
  }

  /**
   * Search answers: no more than the limit; the vector-matched rows first, each a node of
   * the table named by a vector id; after them only full-text rows none of them matched.
   */
  lemma SearchOrder(nodes: seq<MemoryNode>, points: map<string, Point>, args: Args,
                    embed: Embedder, vsearch: VectorSearch, fts: FullText)
    requires SearchResult(nodes, points, args, embed, vsearch, fts).Ok?
    ensures var r := SearchResult(nodes, points, args, embed, vsearch, fts).value;
      var vr := VectorRows(nodes, points, args, embed, vsearch);
      var ids := SearchQdrant(points, args.query, EffectiveLimit(args.limit), embed, vsearch);
      |r| <= EffectiveLimit(args.limit)
      && (forall k :: 0 <= k < |vr| && k < |r| ==> r[k] == vr[k] && r[k] in nodes && r[k].id in ids)
      && (forall k :: |vr| <= k < |r| ==> r[k] in fts(nodes, args.query) && r[k].id !in IdSet(vr))
  {
    var limit := EffectiveLimit(args.limit);
    var ids := SearchQdrant(points, args.query, limit, embed, vsearch);
    var vr := VectorRows(nodes, points, args, embed, vsearch);
    var all := fts(nodes, args.query);
    var text := Prefix(all, limit);
    var r := SearchResult(nodes, points, args, embed, vsearch, fts).value;
    assert r == Prefix(vr + TextOnly(text, IdSet(vr)), limit);
    MergedPrefix(vr, text, limit);
    forall k | 0 <= k < |vr| && k < |r| ensures r[k] in nodes && r[k].id in ids {
      RowsWithIdsMembers(nodes, ids, vr[k]);
    }
    forall k | |vr| <= k < |r| ensures r[k] in all {
      assert r[k] in text;
    }
  }

  /** No node twice, when the table's ids are unique and the full-text query returns each row once. */
  lemma SearchNoDuplicates(nodes: seq<MemoryNode>, points: map<string, Point>, args: Args,
                           embed: Embedder, vsearch: VectorSearch, fts: FullText)
    requires SearchResult(nodes, points, args, embed, vsearch, fts).Ok?
    requires IdsIncreasing(nodes) && DistinctIds(fts(nodes, args.query))
    ensures DistinctIds(SearchResult(nodes, points, args, embed, vsearch, fts).value)
  {
    var limit := EffectiveLimit(args.limit);
    var ids := SearchQdrant(points, args.query, limit, embed, vsearch);
    var vr := VectorRows(nodes, points, args, embed, vsearch);
    var text := Prefix(fts(nodes, args.query), limit);
    assert SearchResult(nodes, points, args, embed, vsearch, fts).value == Prefix(vr + TextOnly(text, IdSet(vr)), limit);
    if |ids| > 0 {
      RowsWithIdsIncreasing(nodes, ids);
    }
    MergedPrefix(vr, text, limit);
  }

  /** With no vector ids (a failed embedding, a failed search, no `node_id` payloads) search is full-text only. */
  lemma FullTextOnly(nodes: seq<MemoryNode>, points: map<string, Point>, args: Args,
                     embed: Embedder, vsearch: VectorSearch, fts: FullText)
    requires EffectiveLimit(args.limit) > 0
    requires SearchQdrant(points, args.query, EffectiveLimit(args.limit), embed, vsearch) == []
    ensures SearchResult(nodes, points, args, embed, vsearch, fts) ==
      Ok(Prefix(fts(nodes, args.query), EffectiveLimit(args.limit)))
  {
    var text := Prefix(fts(nodes, args.query), EffectiveLimit(args.limit));
    assert IdSet([]) == {};
    TextOnlyNothingSeen(text);
    assert [] + text == text;
  }

  /** A vector id is a non-zero `node_id` payload field of some hit. */
  lemma {:induction false} NodeIdsOfMembers(hits: seq<Hit>, x: int)
    ensures x in NodeIdsOf(hits) <==>
      x != 0 && exists k :: 0 <= k < |hits| && SnakeNodeIdField in hits[k].payload && hits[k].payload[SnakeNodeIdField] == x
    decreases |hits|
  {
    if hits != [] {
      NodeIdsOfMembers(hits[1..], x);
      if exists k :: 0 <= k < |hits| && SnakeNodeIdField in hits[k].payload && hits[k].payload[SnakeNodeIdField] == x {
        var k :| 0 <= k < |hits| && SnakeNodeIdField in hits[k].payload && hits[k].payload[SnakeNodeIdField] == x;
        if k > 0 {
          assert hits[1..][k - 1] == hits[k];
        }
      }
      if exists k :: 0 <= k < |hits[1..]| && SnakeNodeIdField in hits[1..][k].payload && hits[1..][k].payload[SnakeNodeIdField] == x {
        var k :| 0 <= k < |hits[1..]| && SnakeNodeIdField in hits[1..][k].payload && hits[1..][k].payload[SnakeNodeIdField] == x;
        assert hits[k + 1] == hits[1..][k];
      }
    }
  }

  /**
   * Points written by the node route, ingestion and extraction carry `nodeId`, not
   * `node_id`: hits on them give search no vector id.
   */
  lemma {:induction false} CamelPayloadsIgnored(hits: seq<Hit>)
    requires forall k :: 0 <= k < |hits| ==> hits[k].payload.Keys == {NodeIdField}
    ensures NodeIdsOf(hits) == []
    decreases |hits|
  {
    if hits != [] {
      assert SnakeNodeIdField !in hits[0].payload;
      assert forall k :: 0 <= k < |hits[1..]| ==> hits[1..][k] == hits[k + 1];
      CamelPayloadsIgnored(hits[1..]);
    }
  }

  /** The advertised `entityType` filter changes nothing. */
  lemma EntityTypeIgnored(nodes: seq<MemoryNode>, points: map<string, Point>, args: Args, e: Option<string>,
                          embed: Embedder, vsearch: VectorSearch, fts: FullText)
    ensures SearchResult(nodes, points, args.(entityType := e), embed, vsearch, fts)
         == SearchResult(nodes, points, args, embed, vsearch, fts)
  {
  }

  // ------------------------------------------------------------------ recall

  /** The edges recorded with `id` as source or target, in table order. */
  function EdgesOf(edges: seq<MemoryEdge>, id: int): (r: seq<MemoryEdge>)
    ensures |r| <= |edges|
  {
    if edges == [] then []
    else (if edges[0].source == id || edges[0].target == id then [edges[0]] else []) + EdgesOf(edges[1..], id)
  }

  /** `recall`: the node with its edges, or the error "Memory node <id> not found". */
  function Recall(nodes: seq<MemoryNode>, edges: seq<MemoryEdge>, id: int): (r: Reply<Value>)
    ensures r.Thrown? <==> !HasNode(nodes, id)
    ensures r.Thrown? ==> r.message == Some("Memory node " + IntToString(id) + " not found")
    ensures r.Ok? ==> r.value.NodeWithEdges? && r.value.node in nodes && r.value.node.id == id
  {
    match FindNode(nodes, id)
    case None => Thrown(Some("Memory node " + IntToString(id) + " not found"))
    case Some(n) => Ok(NodeWithEdges(n, EdgesOf(edges, id)))
  }

  lemma {:induction false} EdgesOfMembers(edges: seq<MemoryEdge>, id: int, e: MemoryEdge)
    ensures e in EdgesOf(edges, id) <==> e in edges && (e.source == id || e.target == id)
    decreases |edges|
  {
    if edges != [] {
      EdgesOfMembers(edges[1..], id, e);
      assert edges == [edges[0]] + edges[1..];
    }
  }

  /** A recalled node comes with every edge touching it (both directions) and no other. */
  lemma RecallEdges(nodes: seq<MemoryNode>, edges: seq<MemoryEdge>, id: int, e: MemoryEdge)
    requires Recall(nodes, edges, id).Ok?
    ensures e in Recall(nodes, edges, id).value.edges <==> e in edges && (e.source == id || e.target == id)
  {
    EdgesOfMembers(edges, id, e);
  }

  // ------------------------------------------------------------------ store

  /** The insert: creator agent, tags `?? []`, absent summary, entity type and id as null. */
  function StoreInsert(args: Args): (v: NodeInsert)
    requires args.nodeType.Some?
    ensures v.createdBy == Some("agent") && v.tags == Some(args.tags.GetOr([]))
    ensures v.content == args.content && v.summary == args.summary && v.metadata.None?
  {
    NodeInsert(args.nodeType.value, args.content, args.summary, args.entityType, args.entityId,
               Some(args.tags.GetOr([])), None, Some("agent"))
  }

  /** Whether the store accepts the insert (an absent type violates NOT NULL). */
  predicate StoreAccepted(args: Args) {
    args.nodeType.Some? && NodeInsertAccepted(StoreInsert(args))
  }

  lemma StoredRow(args: Args, id: int, now: int)
    requires StoreAccepted(args)
    ensures var n := NodeRow(StoreInsert(args), id, now);
      n.createdBy == ByAgent && n.tags == args.tags.GetOr([]) && n.content == args.content.value
      && n.summary == args.summary && n.embeddingId.None? && NodeTypeLabel(n.nodeType) == args.nodeType.value
  {
    assert ParseCreator("agent") == Some(ByAgent);
  }

  /**
   * `generateAndStoreEmbedding(nodeId, content)`: with an embedding, the point goes under
   * `pointId` with payload `node_id`; the answer to the PUT is not checked, so the node's
   * embedding id is set whenever the request got an answer, also a refusal.
   */
  method StoreEmbedding(db: MemoryDb, index: Index, nodeId: int, content: string,
                        embed: Embedder, put: PointWriter, pointId: string)
    requires db.Valid()
    modifies db, index
    ensures db.Valid() && db.edges == old(db.edges) && db.nextNodeId == old(db.nextNodeId) && db.nextEdgeId == old(db.nextEdgeId)
    ensures db.nodes == (if embed(content).Some? && put(pointId) != PutUnreachable
                         then WithEmbeddingId(old(db.nodes), nodeId, pointId) else old(db.nodes))
    ensures index.points == (if embed(content).Some? && put(pointId) == PutStored
                             then old(index.points)[pointId := Point(embed(content).value, map[SnakeNodeIdField := nodeId])]
                             else old(index.points))
  {
    var vector := embed(content);
    if vector.None? {
      return;
    }
    var answer := put(pointId);
    index.Upsert(pointId, vector.value, map[SnakeNodeIdField := nodeId], answer == PutStored);
    if answer == PutUnreachable {
      return;
    }
    db.SetEmbeddingId(nodeId, pointId);
  }

  /** The state store leaves, given the state before it. */
  ghost predicate StoreEffect(nodes0: seq<MemoryNode>, nextId0: int, points0: map<string, Point>,
                              nodes: seq<MemoryNode>, nextId: int, points: map<string, Point>,
                              args: Args, embed: Embedder, put: PointWriter, pointId: string, now: int,
                              r: Reply<Value>)
  {
    if !StoreAccepted(args) then
      r == Thrown(None) && nodes == nodes0 && nextId == nextId0 && points == points0
    else
      var row := NodeRow(StoreInsert(args), nextId0, now);
      var v := embed(args.content.value);
      r == Ok(StoredNode(row)) && nextId == nextId0 + 1
      && nodes == (if v.Some? && put(pointId) != PutUnreachable then nodes0 + [row.(embeddingId := Some(pointId))] else nodes0 + [row])
      && points == (if v.Some? && put(pointId) == PutStored
                    then points0[pointId := Point(v.value, map[SnakeNodeIdField := row.id])] else points0)
  }

  /**
   * `store`: the insert, then the embedding of the content (modelled as finishing right
   * after); the reply is the row as inserted, without an embedding id.
   */
  method Store(db: MemoryDb, index: Index, args: Args, embed: Embedder, put: PointWriter,
               pointId: string, now: int) returns (r: Reply<Value>)
    requires db.Valid()
    modifies db, index
    ensures db.Valid() && db.edges == old(db.edges) && db.nextEdgeId == old(db.nextEdgeId)
    ensures StoreEffect(old(db.nodes), old(db.nextNodeId), old(index.points), db.nodes, db.nextNodeId, index.points,
                        args, embed, put, pointId, now, r)
  {
    if args.nodeType.None? {
      return Thrown(None);
    }
    var n := db.InsertNode(StoreInsert(args), now);
    if n.None? {
      return Thrown(None);
    }
    ghost var nodes := db.nodes;
    StoreEmbedding(db, index, n.value.id, args.content.value, embed, put, pointId);
    WithEmbeddingIdOfLast(old(db.nodes), n.value, pointId);
    r := Ok(StoredNode(n.value));
  }

  // ------------------------------------------------------------------ dispatch

  function UnknownMethod(m: string): string {
    "Unknown memory method: " + m
  }

  /** `handleMemoryTool(method, args)`. */
  method Handle(db: MemoryDb, index: Index, m: string, args: Args, embed: Embedder, vsearch: VectorSearch,
                fts: FullText, put: PointWriter, pointId: string, now: int) returns (r: Reply<Value>)
    requires db.Valid()
    modifies db, index
    ensures db.Valid() && db.edges == old(db.edges) && db.nextEdgeId == old(db.nextEdgeId)
    ensures m != "store" ==> db.nodes == old(db.nodes) && db.nextNodeId == old(db.nextNodeId) && index.points == old(index.points)
    ensures m == "search" ==>
      var s := SearchResult(old(db.nodes), old(index.points), args, embed, vsearch, fts);
      r == if s.Ok? then Ok(Nodes(s.value)) else Thrown(s.message)
    ensures m == "recall" ==> r == Recall(old(db.nodes), old(db.edges), args.nodeId)
    ensures m == "store" ==> StoreEffect(old(db.nodes), old(db.nextNodeId), old(index.points), db.nodes, db.nextNodeId,
                                         index.points, args, embed, put, pointId, now, r)
    ensures m !in {"search", "recall", "store"} ==> r == Thrown(Some(UnknownMethod(m)))
  {
    if m == "search" {
      var s := Search(db.nodes, index.points, args, embed, vsearch, fts);
      r := if s.Ok? then Ok(Nodes(s.value)) else Thrown(s.message);
    } else if m == "recall" {
      r := Recall(db.nodes, db.edges, args.nodeId);
    } else if m == "store" {
      r := Store(db, index, args, embed, put, pointId, now);
    } else {
      r := Thrown(Some(UnknownMethod(m)));
    }
  }
}
