/**
 * The search route `/api/v1/memory/search` (POST): the query is embedded, the vector
 * index is searched, each hit's key is resolved to a node of the table and the nodes are
 * returned with their hits' scores, best first. There is no full-text fallback.
 */
module MemorySearchRoute {
  import opened Wrappers
  import opened MemorySchema
  import opened VectorIndex
  import MemoryEnrich
  import Sorting

  const DefaultTopK: nat := 10
  const DefaultThreshold: real := 0.5

  /**
   * The JSON body. `query` is None when it is absent or not a string; `topK` and
   * `threshold` are None when absent, and then take their defaults.
   */
  datatype SearchBody = SearchBody(query: Option<string>, topK: Option<nat>, threshold: Option<real>)

  /** A node with the score of the hit that named it. */
  datatype ScoredNode = ScoredNode(node: MemoryNode, score: real)

  /**
   * 400 for a missing query, 503 for a failed embedding, otherwise the results; `echo` is
   * the query, which the reply omits when the index returned no hit.
   */
  datatype SearchResponse = MissingQuery | EmbeddingFailed | Found(results: seq<ScoredNode>, echo: Option<string>)

  /** The parsed hit keys, NaN dropped, in hit order: the ids the store is asked for. */
  function HitIds(hits: seq<Hit>): (r: seq<int>)
    ensures |r| <= |hits|
  {
    if hits == [] then []
    else
      match MemoryEnrich.KeyTarget(hits[0].key)
      case None => HitIds(hits[1..])
      case Some(id) => [id] + HitIds(hits[1..])
  }

  /** Every parsed key is asked for. */
  lemma {:induction false} HitIdsHas(hits: seq<Hit>, k: nat)
    requires k < |hits| && MemoryEnrich.KeyTarget(hits[k].key).Some?
    ensures MemoryEnrich.KeyTarget(hits[k].key).value in HitIds(hits)
    decreases k
  {
    var t := MemoryEnrich.KeyTarget(hits[0].key);
    var rest := HitIds(hits[1..]);
    assert HitIds(hits) == if t.None? then rest else [t.value] + rest;
    if k > 0 {
      HitIdsHas(hits[1..], k - 1);
      assert hits[1..][k - 1] == hits[k];
    }
  }

  /**
   * `hits.map(h => nodeMap.get(parseInt(key)) …).filter(Boolean)`: one entry per hit whose
   * key parses to an id of a fetched row, in hit order. With unique ids the map holds one
   * row per id, which is the row `FindNode` finds.
   */
  function Resolve(rows: seq<MemoryNode>, hits: seq<Hit>): (r: seq<ScoredNode>)
    ensures |r| <= |hits|
  {
    if hits == [] then []
    else
      var here := match MemoryEnrich.KeyTarget(hits[0].key)
        case None => []
        case Some(nid) => (match FindNode(rows, nid) case None => [] case Some(n) => [ScoredNode(n, hits[0].score)]);
      here + Resolve(rows, hits[1..])
  }

  function ScoreKey(s: ScoredNode): real { s.score }

  /** The route. A missing or empty query is refused before anything else; a failed embedding gives 503. */
  function Search(nodes: seq<MemoryNode>, points: map<string, Point>, body: SearchBody,
                  embed: Embedder, search: Searcher): (r: SearchResponse)
    ensures r.MissingQuery? <==> body.query.None? || body.query.value == ""
    ensures r.EmbeddingFailed? <==> !r.MissingQuery? && embed(body.query.value).None?
    ensures r.Found? ==> Sorting.SortedDesc(r.results, ScoreKey)
  {
    if body.query.None? || body.query.value == "" then MissingQuery
    else
      match embed(body.query.value)
      case None => EmbeddingFailed
      case Some(v) =>
        var hits := search(points, v, body.topK.GetOr(DefaultTopK), body.threshold.GetOr(DefaultThreshold));
        if |hits| == 0 then Found([], None)
        else
          var ids := HitIds(hits);
          var rows := if |ids| > 0 then RowsWithIds(nodes, ids) else [];
          Found(Sorting.SortDesc(Resolve(rows, hits), ScoreKey), body.query)
  }

  /** The hits the route sees for a body with a query whose embedding succeeded. */
  function Hits(points: map<string, Point>, body: SearchBody, embed: Embedder, search: Searcher): seq<Hit>
    requires body.query.Some? && embed(body.query.value).Some?
  {
    search(points, embed(body.query.value).value, body.topK.GetOr(DefaultTopK), body.threshold.GetOr(DefaultThreshold))
  }

  // ------------------------------------------------------------------ properties

  /** What a resolved entry is: an existing node named by one hit, carrying that hit's score. */
  ghost predicate NamedBy(rows: seq<MemoryNode>, hits: seq<Hit>, x: ScoredNode) {
    exists k :: 0 <= k < |hits| && MemoryEnrich.KeyTarget(hits[k].key) == Some(x.node.id)
      && FindNode(rows, x.node.id) == Some(x.node) && hits[k].score == x.score
  }

  lemma {:induction false} ResolveMembers(rows: seq<MemoryNode>, hits: seq<Hit>, x: ScoredNode)
    ensures x in Resolve(rows, hits) <==> NamedBy(rows, hits, x)
    decreases |hits|
  {
    if hits != [] {
      ResolveMembers(rows, hits[1..], x);
      var here := match MemoryEnrich.KeyTarget(hits[0].key)
        case None => []
        case Some(nid) => (match FindNode(rows, nid) case None => [] case Some(n) => [ScoredNode(n, hits[0].score)]);
      assert Resolve(rows, hits) == here + Resolve(rows, hits[1..]);
      if NamedBy(rows, hits[1..], x) {
        var k :| 0 <= k < |hits[1..]| && MemoryEnrich.KeyTarget(hits[1..][k].key) == Some(x.node.id)
          && FindNode(rows, x.node.id) == Some(x.node) && hits[1..][k].score == x.score;
        assert hits[k + 1] == hits[1..][k];
      }
      if NamedBy(rows, hits, x) {
        var k :| 0 <= k < |hits| && MemoryEnrich.KeyTarget(hits[k].key) == Some(x.node.id)
          && FindNode(rows, x.node.id) == Some(x.node) && hits[k].score == x.score;
        if k > 0 {
          assert hits[1..][k - 1] == hits[k];
        } else {
          assert x in here;
        }
      }
    }
  }

  /**
   * The results, when there are hits: non-increasing scores, no more than the hits, and
   * exactly the table's nodes that some hit names, each with that hit's score.
   */
  lemma SearchResults(nodes: seq<MemoryNode>, points: map<string, Point>, body: SearchBody,
                      embed: Embedder, search: Searcher, x: ScoredNode)
    requires Search(nodes, points, body, embed, search).Found?
    ensures var r := Search(nodes, points, body, embed, search);
      var hits := Hits(points, body, embed, search);
      (r.echo.None? <==> hits == [])
      && Sorting.SortedDesc(r.results, ScoreKey) && |r.results| <= |hits|
      && (x in r.results <==> NamedBy(nodes, hits, x))
  {
    var hits := Hits(points, body, embed, search);
    if hits != [] {
      var ids := HitIds(hits);
      var rows := if |ids| > 0 then RowsWithIds(nodes, ids) else [];
      Sorting.SortDescMembers(Resolve(rows, hits), ScoreKey, x);
      ResolveMembers(rows, hits, x);
      NamedByRows(nodes, hits, x);
    }
  }

  /** A hit names a node among the fetched rows exactly when it names it in the table. */
  lemma NamedByRows(nodes: seq<MemoryNode>, hits: seq<Hit>, x: ScoredNode)
    ensures var ids := HitIds(hits);
      NamedBy(if |ids| > 0 then RowsWithIds(nodes, ids) else [], hits, x) <==> NamedBy(nodes, hits, x)
  {
    var ids := HitIds(hits);
    var rows := if |ids| > 0 then RowsWithIds(nodes, ids) else [];
    if NamedBy(rows, hits, x) || NamedBy(nodes, hits, x) {
      var k :| 0 <= k < |hits| && MemoryEnrich.KeyTarget(hits[k].key) == Some(x.node.id);
      HitIdsHas(hits, k);
      RowsWithIdsLookup(nodes, ids, x.node.id);
    }
  }

  /** With a correct index the route returns at most topK results, each scoring at least the threshold. */
  lemma SearchBounded(nodes: seq<MemoryNode>, points: map<string, Point>, body: SearchBody,
                      embed: Embedder, search: Searcher, k: nat)
    requires WellBehaved(search)
    requires Search(nodes, points, body, embed, search).Found?
    requires k < |Search(nodes, points, body, embed, search).results|
    ensures var r := Search(nodes, points, body, embed, search).results;
      |r| <= body.topK.GetOr(DefaultTopK) && r[k].score >= body.threshold.GetOr(DefaultThreshold)
  {
    var r := Search(nodes, points, body, embed, search).results;
    var v := embed(body.query.value).value;
    var topK, t := body.topK.GetOr(DefaultTopK), body.threshold.GetOr(DefaultThreshold);
    var hits := search(points, v, topK, t);
    assert hits == Hits(points, body, embed, search);
    SearchResults(nodes, points, body, embed, search, r[k]);
    var j :| 0 <= j < |hits| && MemoryEnrich.KeyTarget(hits[j].key) == Some(r[k].node.id)
      && FindNode(nodes, r[k].node.id) == Some(r[k].node) && hits[j].score == r[k].score;
    assert hits[j] in search(points, v, topK, t);
  }

  /** Two hits naming the same node give two entries: the results are not deduplicated. */
  lemma DuplicateHitsKept(n: MemoryNode)
    ensures Resolve([n], [Hit(NodeKey(n.id), 0.9, map[]), Hit(NodeKey(n.id), 0.7, map[])])
      == [ScoredNode(n, 0.9), ScoredNode(n, 0.7)]
  {
    MemoryEnrich.KeyTargetOfNodeKey(n.id);
    var hits := [Hit(NodeKey(n.id), 0.9, map[]), Hit(NodeKey(n.id), 0.7, map[])];
    assert hits[1..][1..] == [];
  }
}
