/**
 * The external services of the memory graph, as oracles: the embedding service and the
 * vector index. The index is a map from point key to vector and payload; its top-k
 * similarity search is a function parameter, since the similarity ranking is the
 * service's own.
 */
module VectorIndex {
  import opened Wrappers
  import JsText

  type Vector = seq<real>

  /** A point payload; only its integer fields (the node id) are modelled. */
  type Payload = map<string, int>

  datatype Point = Point(vector: Vector, payload: Payload)

  /** One search hit: the point key as a string, its similarity score and its payload. */
  datatype Hit = Hit(key: string, score: real, payload: Payload)

  /**
   * `tryGenerateEmbedding(text)`: the vector, or None when the service answered non-OK,
   * or with something other than a non-empty array (`generateEmbedding` throws exactly then).
   */
  type Embedder = string -> Option<Vector>

  /** `searchPoints(vector, topK, scoreThreshold)` over the index contents; [] on a non-OK answer. */
  type Searcher = (map<string, Point>, Vector, nat, real) -> seq<Hit>

  /** Whether the index service accepts an upsert of the given key (`upsertPoint` throws otherwise). */
  type UpsertAcceptor = string -> bool

  /** What a correct top-k search promises: at most k hits, each at least the threshold, each a stored point. */
  ghost predicate WellBehaved(search: Searcher) {
    forall points: map<string, Point>, v: Vector, k: nat, t: real ::
      |search(points, v, k, t)| <= k
      && forall h :: h in search(points, v, k, t) ==> h.score >= t && h.key in points && h.payload == points[h.key].payload
  }

  /** The point key the node routes, ingestion and extraction use: "node-<id>". */
  function NodeKey(id: int): (k: string)
    ensures |k| > 5 && k[..5] == "node-"
  {
    "node-" + JsText.IntToString(id)
  }

  /** Payload field names: the routes and ingestion write `nodeId`, the MCP tool writes `node_id`. */
  const NodeIdField: string := "nodeId"
  const SnakeNodeIdField: string := "node_id"

  class Index {
    var points: map<string, Point>

    constructor ()
      ensures points == map[]
    {
      points := map[];
    }

    /** `upsertPoint(key, vector, payload)`; `accepted` is the service's answer, false meaning it threw. */
    method Upsert(key: string, vector: Vector, payload: Payload, accepted: bool)
      modifies this
      ensures points == if accepted then old(points)[key := Point(vector, payload)] else old(points)
    {
      if accepted {
        points := points[key := Point(vector, payload)];
      }
    }
  }
}
