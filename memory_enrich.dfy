/**
 * Retroactive enrichment (`createRetroactiveEdges`, the A-MEM pattern): after a node
 * gets an embedding, the vector index is asked for similar points and a `related_to`
 * edge is added from the new node to each similar node not yet linked from it.
 */
module MemoryEnrich {
  import opened Wrappers
  import JsText
  import opened MemorySchema
  import opened VectorIndex

  const SimilarityThreshold: real := 0.8
  const MaxSimilar: nat := 5

  /** The node id a point key names: `parseInt(String(key).replace('node-', ''))`, None for NaN. */
  function KeyTarget(key: string): Option<int> {
    JsText.ParseInt(JsText.ReplaceFirst(key, "node-", ""))
  }

  /** The keys written by the node routes, ingestion and extraction name their node. */
  lemma KeyTargetOfNodeKey(id: int)
    ensures KeyTarget(NodeKey(id)) == Some(id)
  {
    JsText.ReplaceFirstAtStart("node-", "", JsText.IntToString(id));
    assert "" + JsText.IntToString(id) == JsText.IntToString(id);
    JsText.ParseIntOfString(id);
  }

  lemma NoNodePrefix(s: string)
    requires 'n' !in s
    ensures !JsText.Contains(s, "node-")
  {
    forall i | 0 <= i <= |s| ensures !JsText.OccursAt(s, "node-", i) {
      if i + 5 <= |s| {
        assert s[i] == s[i..i + 5][0];
      }
    }
  }

  /**
   * A key without "node-" is parsed as it stands: when it starts with decimal digits,
   * those digits name a node, whatever the point is.
   */
  lemma KeyTargetOfDigitPrefix(n: nat, rest: string)
    requires 'n' !in JsText.NatToString(n) + rest
    requires rest == [] || !JsText.IsDigit(rest[0])
    requires n > 0 || rest == [] || (rest[0] != 'x' && rest[0] != 'X')
    ensures KeyTarget(JsText.NatToString(n) + rest) == Some(n)
  {
    NoNodePrefix(JsText.NatToString(n) + rest);
    JsText.ReplaceFirstAbsent(JsText.NatToString(n) + rest, "node-", "");
    JsText.ParseIntPrefix(n, rest);
  }

  /** A random UUID key, as the MCP store writes, names node 7, which has nothing to do with the point. */
  lemma UuidKeyNamesUnrelatedNode()
    ensures KeyTarget("7c9e6679-7425-40de-944b-e07fc1f90ae7") == Some(7)
  {
    UuidKeyShape();
    KeyTargetOfDigitPrefix(7, "c9e6679-7425-40de-944b-e07fc1f90ae7");
  }

  lemma UuidKeyShape()
    ensures "7c9e6679-7425-40de-944b-e07fc1f90ae7" == JsText.NatToString(7) + "c9e6679-7425-40de-944b-e07fc1f90ae7"
    ensures 'n' !in JsText.NatToString(7) + "c9e6679-7425-40de-944b-e07fc1f90ae7"
  {
    SevenDigits();
    assert "7" + "c9e6679-7425-40de-944b-e07fc1f90ae7" == "7c9e6679-7425-40de-944b-e07fc1f90ae7";
    NoLetterN("7c9e6679-7425-40de-944b-e07fc1f90ae7");
  }

  lemma SevenDigits()
    ensures JsText.NatToString(7) == "7"
  {
  }

  lemma NoLetterN(s: string)
    requires s == "7c9e6679-7425-40de-944b-e07fc1f90ae7"
    ensures 'n' !in s
  {
  }

  /** `Math.round(x * 100) / 100`, where `Math.round(y)` is the floor of y + 1/2. */
  function Round2(x: real): real {
    ((x * 100.0 + 0.5).Floor as real) / 100.0
  }

  /** The rounded weight is a whole number of hundredths, within half a hundredth of the score. */
  lemma Round2Close(x: real)
    ensures (Round2(x) * 100.0).Floor as real == Round2(x) * 100.0
    ensures x - 0.005 < Round2(x) <= x + 0.005
  {
  }

  /** Every node some edge from src reaches, whatever its relation. */
  function LinkedFrom(edges: seq<MemoryEdge>, src: int): set<int> {
    set i | 0 <= i < |edges| && edges[i].source == src :: edges[i].target
  }

  datatype Planned = Planned(target: int, weight: real)

  /** A hit as the loop sees it: the parsed key and the score. */
  datatype Scored = Scored(target: Option<int>, score: real)

  function Parsed(hits: seq<Hit>): seq<Scored> {
    if hits == [] then [] else [Scored(KeyTarget(hits[0].key), hits[0].score)] + Parsed(hits[1..])
  }

  lemma {:induction false} ParsedLength(hits: seq<Hit>)
    ensures |Parsed(hits)| == |hits|
  {
    if hits != [] {
      ParsedLength(hits[1..]);
    }
  }

  /** Parsing keeps the hits' order and scores, one entry per hit. */
  lemma {:induction false} ParsedAt(hits: seq<Hit>, i: nat)
    requires i < |hits|
    ensures |Parsed(hits)| == |hits|
    ensures Parsed(hits)[i] == Scored(KeyTarget(hits[i].key), hits[i].score)
  {
    ParsedLength(hits);
    if i > 0 {
      ParsedAt(hits[1..], i - 1);
    }
  }

  /**
   * The node a hit links to, if the loop keeps it: its key parses, names a node other
   * than src that exists, and src is not linked to that node yet.
   */
  function Candidate(nodes: seq<MemoryNode>, linked: set<int>, src: int, h: Scored): Option<int> {
    var t := h.target;
    if t.None? || t.value == src || !HasNode(nodes, t.value) || t.value in linked then None else t
  }

  /**
   * The edges the loop over `hits` creates, in order. `linked` holds the targets already
   * reached from src, including those of edges the same loop has just created.
   */
  function Plan(nodes: seq<MemoryNode>, linked: set<int>, src: int, hits: seq<Scored>): seq<Planned>
    decreases |hits|
  {
    if hits == [] then []
    else
      match Candidate(nodes, linked, src, hits[0])
      case None => Plan(nodes, linked, src, hits[1..])
      case Some(t) => [Planned(t, Round2(hits[0].score))] + Plan(nodes, linked + {t}, src, hits[1..])
  }

  function Targets(plan: seq<Planned>): set<int> {
    set k | 0 <= k < |plan| :: plan[k].target
  }

  /** The rows the insert statements add, with consecutive serial ids. */
  function EdgeRows(firstId: int, src: int, plan: seq<Planned>, now: int): (rows: seq<MemoryEdge>)
    ensures |rows| == |plan|
  {
    if plan == [] then []
    else
      var last := plan[|plan| - 1];
      EdgeRows(firstId, src, plan[..|plan| - 1], now) + [MemoryEdge(firstId + |plan| - 1, src, last.target, RelatedTo, last.weight, now)]
  }

  /** Row k is the k-th planned edge, with serial id firstId + k. */
  lemma {:induction false} EdgeRowsAt(firstId: int, src: int, plan: seq<Planned>, now: int, k: nat)
    requires k < |plan|
    ensures EdgeRows(firstId, src, plan, now)[k] == MemoryEdge(firstId + k, src, plan[k].target, RelatedTo, plan[k].weight, now)
    decreases |plan|
  {
    if k < |plan| - 1 {
      EdgeRowsAt(firstId, src, plan[..|plan| - 1], now, k);
    }
  }

  /** The hits enrichment asks for: at most MaxSimilar + 1 = 6 of them, scoring at least 0.8. */
  function EnrichHits(points: map<string, Point>, search: Searcher, embedding: Vector): seq<Hit> {
    search(points, embedding, MaxSimilar + 1, SimilarityThreshold)
  }

  // ------------------------------------------------------------------ the plan's properties

  /** At most one edge per hit. */
  lemma {:induction false} PlanLength(nodes: seq<MemoryNode>, linked: set<int>, src: int, hits: seq<Scored>)
    ensures |Plan(nodes, linked, src, hits)| <= |hits|
    decreases |hits|
  {
    if hits != [] {
      match Candidate(nodes, linked, src, hits[0])
      case None => PlanLength(nodes, linked, src, hits[1..]);
      case Some(t) => PlanLength(nodes, linked + {t}, src, hits[1..]);
    }
  }

  /** Every planned edge avoids a self-loop, points to an existing node, and to one not linked before. */
  lemma {:induction false} PlanTargetsValid(nodes: seq<MemoryNode>, linked: set<int>, src: int, hits: seq<Scored>, k: nat)
    requires k < |Plan(nodes, linked, src, hits)|
    ensures var t := Plan(nodes, linked, src, hits)[k].target;
      t != src && HasNode(nodes, t) && t !in linked
    decreases |hits|
  {
    var plan := Plan(nodes, linked, src, hits);
    match Candidate(nodes, linked, src, hits[0])
    case None =>
      PlanTargetsValid(nodes, linked, src, hits[1..], k);
    case Some(t) =>
      var rest := Plan(nodes, linked + {t}, src, hits[1..]);
      assert plan == [Planned(t, Round2(hits[0].score))] + rest;
      if k > 0 {
        PlanTargetsValid(nodes, linked + {t}, src, hits[1..], k - 1);
        assert plan[k] == rest[k - 1];
      }
  }

  /** Several hits naming the same node yield one edge: the planned targets are pairwise distinct. */
  lemma {:induction false} PlanTargetsDistinct(nodes: seq<MemoryNode>, linked: set<int>, src: int, hits: seq<Scored>, k: nat, m: nat)
    requires k < m < |Plan(nodes, linked, src, hits)|
    ensures Plan(nodes, linked, src, hits)[k].target != Plan(nodes, linked, src, hits)[m].target
    decreases |hits|
  {
    var plan := Plan(nodes, linked, src, hits);
    match Candidate(nodes, linked, src, hits[0])
    case None =>
      PlanTargetsDistinct(nodes, linked, src, hits[1..], k, m);
    case Some(t) =>
      var rest := Plan(nodes, linked + {t}, src, hits[1..]);
      assert plan == [Planned(t, Round2(hits[0].score))] + rest;
      assert plan[m] == rest[m - 1];
      if k > 0 {
        PlanTargetsDistinct(nodes, linked + {t}, src, hits[1..], k - 1, m - 1);
        assert plan[k] == rest[k - 1];
      } else {
        PlanTargetsValid(nodes, linked + {t}, src, hits[1..], m - 1);
      }
  }

  /** Every planned edge comes from a hit whose key names its target, and carries that hit's rounded score. */
  lemma {:induction false} PlanFromHits(nodes: seq<MemoryNode>, linked: set<int>, src: int, hits: seq<Scored>, k: nat)
    requires k < |Plan(nodes, linked, src, hits)|
    ensures var p := Plan(nodes, linked, src, hits)[k];
      exists j :: 0 <= j < |hits| && hits[j].target == Some(p.target) && p.weight == Round2(hits[j].score)
    decreases |hits|
  {
    var plan := Plan(nodes, linked, src, hits);
    match Candidate(nodes, linked, src, hits[0])
    case None =>
      PlanFromHits(nodes, linked, src, hits[1..], k);
      var j :| 0 <= j < |hits[1..]| && hits[1..][j].target == Some(plan[k].target)
               && plan[k].weight == Round2(hits[1..][j].score);
      assert hits[j + 1] == hits[1..][j];
    case Some(t) =>
      var rest := Plan(nodes, linked + {t}, src, hits[1..]);
      assert plan == [Planned(t, Round2(hits[0].score))] + rest;
      if k == 0 {
        assert hits[0].target == Some(plan[0].target);
      } else {
        PlanFromHits(nodes, linked + {t}, src, hits[1..], k - 1);
        assert plan[k] == rest[k - 1];
        var j :| 0 <= j < |hits[1..]| && hits[1..][j].target == Some(rest[k - 1].target)
                 && rest[k - 1].weight == Round2(hits[1..][j].score);
        assert hits[j + 1] == hits[1..][j];
      }
  }

  /**
   * Conversely, every hit that names an existing node other than src, not yet linked,
   * yields an edge to it (once, even if several hits name it).
   */
  lemma {:induction false} PlanComplete(nodes: seq<MemoryNode>, linked: set<int>, src: int, hits: seq<Scored>, j: nat)
    requires j < |hits|
    requires Candidate(nodes, linked, src, hits[j]).Some?
    ensures Candidate(nodes, linked, src, hits[j]).value in Targets(Plan(nodes, linked, src, hits))
    decreases |hits|
  {
    var tj := Candidate(nodes, linked, src, hits[j]).value;
    var plan := Plan(nodes, linked, src, hits);
    match Candidate(nodes, linked, src, hits[0])
    case None =>
      assert hits[1..][j - 1] == hits[j];
      PlanComplete(nodes, linked, src, hits[1..], j - 1);
    case Some(t) =>
      var rest := Plan(nodes, linked + {t}, src, hits[1..]);
      assert plan == [Planned(t, Round2(hits[0].score))] + rest;
      if t == tj {
        assert plan[0].target == tj;
      } else {
        assert hits[1..][j - 1] == hits[j];
        assert Candidate(nodes, linked + {t}, src, hits[1..][j - 1]) == Some(tj);
        PlanComplete(nodes, linked + {t}, src, hits[1..], j - 1);
        var k :| 0 <= k < |rest| && rest[k].target == tj;
        assert plan[k + 1] == rest[k];
      }
  }

  /** Once every planned target is linked, planning again over the same hits yields nothing. */
  lemma {:induction false} PlanIdempotent(nodes: seq<MemoryNode>, linked: set<int>, src: int, hits: seq<Scored>)
    ensures Plan(nodes, linked + Targets(Plan(nodes, linked, src, hits)), src, hits) == []
    decreases |hits|
  {
    if hits != [] {
      var plan := Plan(nodes, linked, src, hits);
      match Candidate(nodes, linked, src, hits[0])
      case None =>
        PlanIdempotent(nodes, linked, src, hits[1..]);
        assert Candidate(nodes, linked + Targets(plan), src, hits[0]).None?;
      case Some(t) =>
        var rest := Plan(nodes, linked + {t}, src, hits[1..]);
        assert plan == [Planned(t, Round2(hits[0].score))] + rest;
        assert Targets(plan) == {t} + Targets(rest) by {
          forall x | x in Targets(plan) ensures x in {t} + Targets(rest) {
            var k :| 0 <= k < |plan| && plan[k].target == x;
            if k > 0 { assert plan[k] == rest[k - 1]; }
          }
          forall x | x in Targets(rest) ensures x in Targets(plan) {
            var k :| 0 <= k < |rest| && rest[k].target == x;
            assert plan[k + 1] == rest[k];
          }
          assert plan[0].target == t;
        }
        PlanIdempotent(nodes, linked + {t}, src, hits[1..]);
        assert linked + Targets(plan) == (linked + {t}) + Targets(rest);
        assert Candidate(nodes, linked + Targets(plan), src, hits[0]).None?;
    }
  }

  /** The edges a run adds extend the linked set by exactly the planned targets. */
  lemma LinkedAfterRows(edges: seq<MemoryEdge>, firstId: int, src: int, plan: seq<Planned>, now: int)
    ensures LinkedFrom(edges + EdgeRows(firstId, src, plan, now), src) == LinkedFrom(edges, src) + Targets(plan)
  {
    var rows := EdgeRows(firstId, src, plan, now);
    var all := edges + rows;
    forall x | x in LinkedFrom(all, src) ensures x in LinkedFrom(edges, src) + Targets(plan) {
      var i :| 0 <= i < |all| && all[i].source == src && all[i].target == x;
      if i < |edges| {
        assert edges[i] == all[i];
      } else {
        assert rows[i - |edges|] == all[i];
        EdgeRowsAt(firstId, src, plan, now, i - |edges|);
      }
    }
    forall x | x in LinkedFrom(edges, src) + Targets(plan) ensures x in LinkedFrom(all, src) {
      if x in LinkedFrom(edges, src) {
        var i :| 0 <= i < |edges| && edges[i].source == src && edges[i].target == x;
        assert all[i] == edges[i];
      } else {
        var k :| 0 <= k < |plan| && plan[k].target == x;
        assert all[|edges| + k] == rows[k];
        EdgeRowsAt(firstId, src, plan, now, k);
      }
    }
  }

  lemma LinkedAfterOne(edges: seq<MemoryEdge>, e: MemoryEdge, src: int)
    requires e.source == src
    ensures LinkedFrom(edges + [e], src) == LinkedFrom(edges, src) + {e.target}
  {
    var all := edges + [e];
    forall x | x in LinkedFrom(all, src) ensures x in LinkedFrom(edges, src) + {e.target} {
      var j :| 0 <= j < |all| && all[j].source == src && all[j].target == x;
      if j < |edges| { assert edges[j] == all[j]; }
    }
    forall x | x in LinkedFrom(edges, src) ensures x in LinkedFrom(all, src) {
      var j :| 0 <= j < |edges| && edges[j].source == src && edges[j].target == x;
      assert all[j] == edges[j];
    }
    assert all[|edges|] == e;
  }

  /** Running enrichment a second time on the same tables and index adds no edges. */
  lemma EnrichTwiceAddsNothing(nodes: seq<MemoryNode>, edges: seq<MemoryEdge>, firstId: int, src: int, hits: seq<Scored>, now: int)
    ensures var plan := Plan(nodes, LinkedFrom(edges, src), src, hits);
      Plan(nodes, LinkedFrom(edges + EdgeRows(firstId, src, plan, now), src), src, hits) == []
  {
    var plan := Plan(nodes, LinkedFrom(edges, src), src, hits);
    LinkedAfterRows(edges, firstId, src, plan, now);
    PlanIdempotent(nodes, LinkedFrom(edges, src), src, hits);
  }

  /** With a search that keeps its limit, one call adds at most six edges. */
  lemma AtMostSixEdges(points: map<string, Point>, search: Searcher, embedding: Vector,
                       nodes: seq<MemoryNode>, linked: set<int>, src: int)
    requires WellBehaved(search)
    ensures |Plan(nodes, linked, src, Parsed(EnrichHits(points, search, embedding)))| <= 6
  {
    PlanLength(nodes, linked, src, Parsed(EnrichHits(points, search, embedding)));
    ParsedLength(EnrichHits(points, search, embedding));
  }

  // ------------------------------------------------------------------ the loop

  /** `existing.length > 0`: some edge src -> target, whatever its relation. */
  function EdgeExists(edges: seq<MemoryEdge>, src: int, target: int): (b: bool)
    ensures b <==> target in LinkedFrom(edges, src)
  {
    exists i :: 0 <= i < |edges| && edges[i].source == src && edges[i].target == target
  }

  /** One inserted row extends the rows of the edges done so far. */
  lemma EdgeRowsSnoc(edges0: seq<MemoryEdge>, firstId: int, src: int, done: seq<Planned>, step: Planned, now: int)
    ensures edges0 + EdgeRows(firstId, src, done, now) + [MemoryEdge(firstId + |done|, src, step.target, RelatedTo, step.weight, now)]
         == edges0 + EdgeRows(firstId, src, done + [step], now)
  {
    assert (done + [step])[..|done|] == done;
  }

  /** The plan done so far after one more hit, whose candidate is `c`. */
  function Advance(done: seq<Planned>, c: Option<int>, score: real): seq<Planned> {
    if c.None? then done else done + [Planned(c.value, Round2(score))]
  }

  /**
   * The loop's invariant across one hit: the edge table and the plan still done,
   * whether the hit was dropped or made an edge.
   */
  lemma EnrichStep(nodes: seq<MemoryNode>, edges0: seq<MemoryEdge>, firstId: int, src: int, scored: seq<Scored>,
                   i: nat, plan: seq<Planned>, done: seq<Planned>, before: seq<MemoryEdge>, after: seq<MemoryEdge>, now: int)
    requires i < |scored|
    requires before == edges0 + EdgeRows(firstId, src, done, now)
    requires plan == done + Plan(nodes, LinkedFrom(before, src), src, scored[i..])
    requires var c := Candidate(nodes, LinkedFrom(before, src), src, scored[i]);
      after == if c.None? then before
               else before + [MemoryEdge(firstId + |done|, src, c.value, RelatedTo, Round2(scored[i].score), now)]
    ensures var next := Advance(done, Candidate(nodes, LinkedFrom(before, src), src, scored[i]), scored[i].score);
      after == edges0 + EdgeRows(firstId, src, next, now)
      && plan == next + Plan(nodes, LinkedFrom(after, src), src, scored[i + 1..])
  {
    var linked := LinkedFrom(before, src);
    var c := Candidate(nodes, linked, src, scored[i]);
    PlanStep(nodes, linked, src, scored, i);
    if c.Some? {
      EnrichStepLinked(nodes, edges0, firstId, src, scored, i, plan, done, before, after, now, c.value);
    }
  }

  lemma EnrichStepLinked(nodes: seq<MemoryNode>, edges0: seq<MemoryEdge>, firstId: int, src: int, scored: seq<Scored>,
                         i: nat, plan: seq<Planned>, done: seq<Planned>, before: seq<MemoryEdge>, after: seq<MemoryEdge>,
                         now: int, t: int)
    requires i < |scored|
    requires before == edges0 + EdgeRows(firstId, src, done, now)
    requires plan == done + ([Planned(t, Round2(scored[i].score))] + Plan(nodes, LinkedFrom(before, src) + {t}, src, scored[i + 1..]))
    requires after == before + [MemoryEdge(firstId + |done|, src, t, RelatedTo, Round2(scored[i].score), now)]
    ensures var next := done + [Planned(t, Round2(scored[i].score))];
      after == edges0 + EdgeRows(firstId, src, next, now)
      && plan == next + Plan(nodes, LinkedFrom(after, src), src, scored[i + 1..])
  {
    var step := Planned(t, Round2(scored[i].score));
    LinkedAfterOne(before, after[|before|], src);
    EdgeRowsSnoc(edges0, firstId, src, done, step, now);
    var tail := Plan(nodes, LinkedFrom(before, src) + {t}, src, scored[i + 1..]);
    assert done + ([step] + tail) == (done + [step]) + tail;
  }

  lemma PlanStep(nodes: seq<MemoryNode>, linked: set<int>, src: int, hits: seq<Scored>, i: nat)
    requires i < |hits|
    ensures Plan(nodes, linked, src, hits[i..]) ==
      match Candidate(nodes, linked, src, hits[i])
      case None => Plan(nodes, linked, src, hits[i + 1..])
      case Some(t) => [Planned(t, Round2(hits[i].score))] + Plan(nodes, linked + {t}, src, hits[i + 1..])
  {
    assert hits[i..][1..] == hits[i + 1..];
  }

  /**
   * One pass of the loop body over a hit: the key parse, the self-link and existence
   * checks, the "already linked" query and the insert of a `related_to` edge.
   */
  method LinkHit(db: MemoryDb, src: int, h: Scored, now: int) returns (raised: bool)
    requires db.Valid()
    modifies db
    ensures db.Valid() && db.nodes == old(db.nodes) && db.nextNodeId == old(db.nextNodeId)
    ensures var c := Candidate(old(db.nodes), LinkedFrom(old(db.edges), src), src, h);
      if c.None? then
        !raised && db.edges == old(db.edges) && db.nextEdgeId == old(db.nextEdgeId)
      else if HasNode(old(db.nodes), src) then
        !raised && db.nextEdgeId == old(db.nextEdgeId) + 1
        && db.edges == old(db.edges) + [MemoryEdge(old(db.nextEdgeId), src, c.value, RelatedTo, Round2(h.score), now)]
      else
        raised && db.edges == old(db.edges) && db.nextEdgeId == old(db.nextEdgeId)
  {
    var t := h.target;
    if t.Some? && t.value != src {
      var target := FindNode(db.nodes, t.value);
      if target.Some? {
        if !EdgeExists(db.edges, src, t.value) {
          var e := db.InsertEdge(src, t.value, RelatedTo, Some(Round2(h.score)), now);
          return e.None?;
        }
      }
    }
    return false;
  }

  /**
   * The loop of `createRetroactiveEdges` over the parsed hits, linking from src. The only
   * failure is an insert whose source does not exist (a foreign-key violation), which
   * raises on the first edge.
   */
  method LinkAll(db: MemoryDb, src: int, scored: seq<Scored>, now: int) returns (raised: bool)
    requires db.Valid()
    modifies db
    ensures db.Valid() && db.nodes == old(db.nodes) && db.nextNodeId == old(db.nextNodeId)
    ensures var plan := Plan(old(db.nodes), LinkedFrom(old(db.edges), src), src, scored);
      if HasNode(old(db.nodes), src) then
        !raised && db.edges == old(db.edges) + EdgeRows(old(db.nextEdgeId), src, plan, now)
        && db.nextEdgeId == old(db.nextEdgeId) + |plan|
      else
        raised == (plan != []) && db.edges == old(db.edges) && db.nextEdgeId == old(db.nextEdgeId)
  {
    ghost var nodes := db.nodes;
    ghost var linked0 := LinkedFrom(db.edges, src);
    ghost var plan := Plan(nodes, linked0, src, scored);
    ghost var done: seq<Planned> := [];
    ghost var rows, linked, rest := [], linked0, plan;
    var i := 0;
    while i < |scored|
      invariant 0 <= i <= |scored|
      invariant db.Valid() && db.nodes == nodes && db.nextNodeId == old(db.nextNodeId)
      invariant db.edges == old(db.edges) + rows && rows == EdgeRows(old(db.nextEdgeId), src, done, now)
      invariant db.nextEdgeId == old(db.nextEdgeId) + |done|
      invariant linked == LinkedFrom(db.edges, src)
      invariant plan == done + rest && rest == Plan(nodes, linked, src, scored[i..])
      invariant !HasNode(nodes, src) ==> done == []
    {
      ghost var c := Candidate(nodes, linked, src, scored[i]);
      var failed := LinkHit(db, src, scored[i], now);
      if failed {
        PlanStep(nodes, linked, src, scored, i);
        return true;
      }
      EnrichStep(nodes, old(db.edges), old(db.nextEdgeId), src, scored, i, plan, done, old(db.edges) + rows, db.edges, now);
      done := Advance(done, c, scored[i].score);
      rows := EdgeRows(old(db.nextEdgeId), src, done, now);
      linked := LinkedFrom(db.edges, src);
      rest := Plan(nodes, linked, src, scored[i + 1..]);
      i := i + 1;
    }
    assert scored[i..] == [];
    assert plan == done + [] == done;
    raised := false;
  }

  /**
   * `createRetroactiveEdges(newNodeId, embedding)`: the similarity search, then the
   * loop over its hits with their keys parsed.
   */
  method CreateRetroactiveEdges(db: MemoryDb, points: map<string, Point>, search: Searcher,
                                newNodeId: int, embedding: Vector, now: int) returns (raised: bool)
    requires db.Valid()
    modifies db
    ensures db.Valid() && db.nodes == old(db.nodes) && db.nextNodeId == old(db.nextNodeId)
    ensures var plan := Plan(old(db.nodes), LinkedFrom(old(db.edges), newNodeId), newNodeId, Parsed(EnrichHits(points, search, embedding)));
      if HasNode(old(db.nodes), newNodeId) then
        !raised && db.edges == old(db.edges) + EdgeRows(old(db.nextEdgeId), newNodeId, plan, now)
        && db.nextEdgeId == old(db.nextEdgeId) + |plan|
      else
        raised == (plan != []) && db.edges == old(db.edges) && db.nextEdgeId == old(db.nextEdgeId)
  {
    var hits := EnrichHits(points, search, embedding);
    raised := LinkAll(db, newNodeId, Parsed(hits), now);
  }

  /**
   * `createRetroactiveEdges(id, embedding).catch(() => {})`, as the callers run it (in
   * sequence here): any failure is dropped, and what remains visible is that only
   * `related_to` edges from the node are appended.
   */
  method EnrichIgnoringErrors(db: MemoryDb, points: map<string, Point>, search: Searcher,
                              newNodeId: int, embedding: Vector, now: int)
    requires db.Valid()
    modifies db
    ensures db.Valid() && db.nodes == old(db.nodes) && db.nextNodeId == old(db.nextNodeId)
    ensures db.nextEdgeId >= old(db.nextEdgeId)
    ensures |db.edges| >= |old(db.edges)| && db.edges[..|old(db.edges)|] == old(db.edges)
    ensures forall j :: |old(db.edges)| <= j < |db.edges| ==>
      db.edges[j].relation == RelatedTo && db.edges[j].source == newNodeId
  {
    ghost var before, nodes, firstId := db.edges, db.nodes, db.nextEdgeId;
    ghost var plan := Plan(nodes, LinkedFrom(before, newNodeId), newNodeId, Parsed(EnrichHits(points, search, embedding)));
    var _ := CreateRetroactiveEdges(db, points, search, newNodeId, embedding, now);
    if HasNode(nodes, newNodeId) {
      AppendedRows(before, db.edges, firstId, newNodeId, plan, now);
    }
  }

  /**
   * What extraction, ingestion and the node route do after an accepted upsert of the node's
   * point: the embedding id is set to "node-<id>" on the new row, then enrichment runs, its
   * failure ignored.
   */
  method KeyNode(db: MemoryDb, points: map<string, Point>, row: MemoryNode, vector: Vector, search: Searcher, now: int)
    requires db.Valid() && |db.nodes| > 0 && db.nodes[|db.nodes| - 1] == row
    modifies db
    ensures db.Valid() && db.nextNodeId == old(db.nextNodeId) && db.nextEdgeId >= old(db.nextEdgeId)
    ensures db.nodes == old(db.nodes)[..|old(db.nodes)| - 1] + [row.(embeddingId := Some(NodeKey(row.id)))]
    ensures |db.edges| >= |old(db.edges)| && db.edges[..|old(db.edges)|] == old(db.edges)
    ensures forall j :: |old(db.edges)| <= j < |db.edges| ==> db.edges[j].relation == RelatedTo && db.edges[j].source == row.id
  {
    ghost var prefix := db.nodes[..|db.nodes| - 1];
    assert db.nodes == prefix + [row];
    assert forall i :: 0 <= i < |prefix| ==> prefix[i].id < row.id by {
      forall i | 0 <= i < |prefix| ensures prefix[i].id < row.id {
        assert db.nodes[i] == prefix[i];
      }
    }
    WithEmbeddingIdOfLast(prefix, row, NodeKey(row.id));
    db.SetEmbeddingId(row.id, NodeKey(row.id));
    EnrichIgnoringErrors(db, points, search, row.id, vector, now);
  }

  lemma AppendedRows(before: seq<MemoryEdge>, after: seq<MemoryEdge>, firstId: int, src: int, plan: seq<Planned>, now: int)
    requires after == before + EdgeRows(firstId, src, plan, now)
    ensures |after| >= |before| && after[..|before|] == before
    ensures forall j :: |before| <= j < |after| ==> after[j].relation == RelatedTo && after[j].source == src
  {
    var rows := EdgeRows(firstId, src, plan, now);
    forall j | |before| <= j < |after| ensures after[j].relation == RelatedTo && after[j].source == src {
      assert after[j] == rows[j - |before|];
      EdgeRowsAt(firstId, src, plan, now, j - |before|);
    }
  }
}
