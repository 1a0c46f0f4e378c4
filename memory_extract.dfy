/**
 * Triplet extraction (`extractTriplets`): the content of an episodic node is sent to a
 * completion service, the reply is read as a JSON array of (subject, relation, object)
 * triplets, and each complete triplet among the first five elements becomes a semantic
 * node linked from the episodic node by a `learned_from` edge, then embedded, indexed
 * and enriched.
 */
module MemoryExtract {
  import opened Wrappers
  import opened JsText
  import opened MemorySchema
  import opened VectorIndex
  import MemoryEnrich
  import opened SeqFacts

  /** The completion service's answer: non-OK, a thrown request, or the reply content. */
  datatype Reply = NotOk | Failed | Ok(content: Option<string>)

  /** The reply to a given user message (the prompt, model and temperature are fixed). */
  type Completion = string -> Reply

  /**
   * One field of an element: absent, a string, or any other JSON value (a number, a boolean,
   * `null`, an object or an array), given by its truthiness and by the text a template
   * literal renders it as.
   */
  datatype Field = Missing | Text(s: string) | NonText(truthy: bool, shown: string)

  /**
   * One array element as the loop reads it; `null` elements are kept apart because reading
   * a field of one throws, and any other non-object value has every field missing.
   */
  datatype Element = NullElement | ObjectElement(subject: Field, relation: Field, obj: Field) | OtherElement

  /** `JSON.parse` followed by `Array.isArray`. */
  datatype JsonValue = Invalid | NonArray | ArrayOf(elements: seq<Element>)

  type JsonParser = string -> JsonValue

  const MaxPromptChars: nat := 1000
  const MaxTriplets: nat := 5
  const LearnedWeight: real := 0.9

  // ------------------------------------------------------------------ reading the reply

  /** One `replace(/<fence>\n?/g, '')`: every occurrence of the fence, with a newline right after it, is removed. */
  function RemoveFence(s: string, fence: string): string
    requires fence != []
    decreases |s|
  {
    if s == [] then []
    else if StartsWith(s, fence) then
      var r := s[|fence|..];
      if r != [] && r[0] == '\n' then RemoveFence(r[1..], fence) else RemoveFence(r, fence)
    else [s[0]] + RemoveFence(s[1..], fence)
  }

  /** The text handed to `JSON.parse`: both fences stripped from the trimmed reply, trimmed again. */
  function Cleaned(raw: string): string {
    Trim(RemoveFence(RemoveFence(raw, "```json"), "```"))
  }

  /**
   * The elements the loop visits, or None when the function returns before the loop: a
   * non-OK answer, a failed request, JSON that does not parse, or a value that is not an array.
   * A missing content is read as the empty string.
   */
  function Slots(reply: Reply, parse: JsonParser): (r: Option<seq<Element>>)
    ensures r.Some? <==> reply.Ok? && parse(Cleaned(Trim(reply.content.GetOr("")))).ArrayOf?
    ensures r.Some? ==> var es := parse(Cleaned(Trim(reply.content.GetOr("")))).elements;
      |r.value| == (if |es| < MaxTriplets then |es| else MaxTriplets) && r.value == es[..|r.value|]
  {
    match reply
    case NotOk => None
    case Failed => None
    case Ok(content) =>
      match parse(Cleaned(Trim(content.GetOr(""))))
      case Invalid => None
      case NonArray => None
      case ArrayOf(es) => Some(if |es| < MaxTriplets then es else es[..MaxTriplets])
  }

  // ------------------------------------------------------------------ one element

  /** `!f` is false: a non-empty string, or a truthy value of another type. */
  predicate Truthy(f: Field) {
    match f
    case Missing => false
    case Text(s) => s != ""
    case NonText(truthy, _) => truthy
  }

  /** `${f}` for a field that is present. */
  function Shown(f: Field): (r: string)
    requires !f.Missing?
    ensures f.Text? ==> r == f.s
  {
    if f.Text? then f.s else f.shown
  }

  predicate Complete(e: Element) {
    e.ObjectElement? && Truthy(e.subject) && Truthy(e.relation) && Truthy(e.obj)
  }

  function TripletText(e: Element): string
    requires Complete(e)
  {
    Shown(e.subject) + " " + Shown(e.relation) + " " + Shown(e.obj)
  }

  /** A semantic node made from a triplet; `vector` is the indexed embedding, if any. */
  datatype Created = Created(content: string, relation: string, vector: Option<Vector>)

  datatype Outcome = Skipped | Made(item: Created) | MadeThenRaised(item: Created) | Raised

  /**
   * What one element leads to when the next node id is `id`: a null element throws, an
   * incomplete one is skipped, a complete one makes a node, which is indexed when its
   * embedding succeeds, and whose refused upsert throws after the node and edge exist.
   */
  function Step(e: Element, id: int, embed: Embedder, accept: UpsertAcceptor): Outcome {
    if e.NullElement? then Raised
    else if !Complete(e) then Skipped
    else
      var v := embed(TripletText(e));
      if v.Some? && !accept(NodeKey(id)) then MadeThenRaised(Created(TripletText(e), Shown(e.relation), None))
      else Made(Created(TripletText(e), Shown(e.relation), v))
  }

  /**
   * Fields are tested by JS truthiness, not by type: a truthy number, boolean or object
   * subject makes a node whose content starts with its template-literal text, and a falsy
   * one (0, false, null) skips the element.
   */
  lemma NonStringSubject(shown: string, relation: string, obj: string, id: int, embed: Embedder, accept: UpsertAcceptor)
    requires relation != "" && obj != ""
    ensures var out := Step(ObjectElement(NonText(true, shown), Text(relation), Text(obj)), id, embed, accept);
      (out.Made? || out.MadeThenRaised?) && out.item.content == shown + " " + relation + " " + obj
      && out.item.relation == relation
    ensures Step(ObjectElement(NonText(false, shown), Text(relation), Text(obj)), id, embed, accept) == Skipped
  {
  }

  datatype Trace = Trace(created: seq<Created>, raised: bool)

  /** The nodes the loop creates over `slots`, the first with id `firstId`, and whether it ends by throwing. */
  function Run(slots: seq<Element>, firstId: int, embed: Embedder, accept: UpsertAcceptor): Trace
    decreases |slots|
  {
    if slots == [] then Trace([], false)
    else
      match Step(slots[0], firstId, embed, accept)
      case Raised => Trace([], true)
      case Skipped => Run(slots[1..], firstId, embed, accept)
      case MadeThenRaised(c) => Trace([c], true)
      case Made(c) =>
        var t := Run(slots[1..], firstId + 1, embed, accept);
        Trace([c] + t.created, t.raised)
  }

  // ------------------------------------------------------------------ the resulting rows

  /** The values the insert supplies for a triplet: content = summary, tags [relation], creator agent. */
  function SemanticInsert(c: Created): NodeInsert {
    NodeInsert("semantic", Some(c.content), Some(c.content), None, None, Some([c.relation]), None, Some("agent"))
  }

  /** The stored row of a created node, its embedding id set exactly when it was indexed. */
  function SemanticRow(c: Created, id: int, now: int): (n: MemoryNode)
    ensures n.nodeType == Semantic && n.content == c.content && n.summary == Some(c.content)
    ensures n.tags == [c.relation] && n.createdBy == ByAgent
    ensures n.embeddingId == if c.vector.Some? then Some(NodeKey(id)) else None
  {
    MemoryNode(id, Semantic, c.content, Some(c.content), None, None, [c.relation], None,
               if c.vector.Some? then Some(NodeKey(id)) else None, now, ByAgent)
  }

  function SemanticRows(cs: seq<Created>, firstId: int, now: int): (rows: seq<MemoryNode>)
    ensures |rows| == |cs|
    decreases |cs|
  {
    if cs == [] then []
    else SemanticRows(cs[..|cs| - 1], firstId, now) + [SemanticRow(cs[|cs| - 1], firstId + |cs| - 1, now)]
  }

  /** Row k is the k-th created node, with id firstId + k. */
  lemma {:induction false} SemanticRowsAt(cs: seq<Created>, firstId: int, now: int, k: nat)
    requires k < |cs|
    ensures SemanticRows(cs, firstId, now)[k] == SemanticRow(cs[k], firstId + k, now)
    decreases |cs|
  {
    if k < |cs| - 1 {
      SemanticRowsAt(cs[..|cs| - 1], firstId, now, k);
    }
  }

  /** The index after the upserts of the created nodes, in order. */
  function PointsAfter(points: map<string, Point>, cs: seq<Created>, firstId: int): map<string, Point>
    decreases |cs|
  {
    if cs == [] then points
    else
      var before := PointsAfter(points, cs[..|cs| - 1], firstId);
      var c := cs[|cs| - 1];
      var id := firstId + |cs| - 1;
      if c.vector.Some? then before[NodeKey(id) := Point(c.vector.value, map[NodeIdField := id])] else before
  }

  /** The `learned_from` edges among some rows, in order. */
  function Learned(edges: seq<MemoryEdge>): seq<MemoryEdge> {
    if edges == [] then [] else (if edges[0].relation == LearnedFrom then [edges[0]] else []) + Learned(edges[1..])
  }

  /**
   * The shape of the edges one run adds: the k-th `learned_from` edge runs from the
   * episodic node to the k-th new node with weight 0.9, and every other added edge is a
   * `related_to` edge from one of the new nodes (the enrichment of that node).
   */
  ghost predicate AddedEdges(added: seq<MemoryEdge>, episodicId: int, firstId: int, n: nat) {
    |Learned(added)| == n
    && (forall k :: 0 <= k < n ==>
          Learned(added)[k].source == episodicId && Learned(added)[k].target == firstId + k
          && Learned(added)[k].weight == LearnedWeight)
    && (forall j :: 0 <= j < |added| ==>
          added[j].relation == LearnedFrom
          || (added[j].relation == RelatedTo && firstId <= added[j].source < firstId + n))
  }

  // ------------------------------------------------------------------ properties

  lemma {:induction false} LearnedAppend(a: seq<MemoryEdge>, b: seq<MemoryEdge>)
    ensures Learned(a + b) == Learned(a) + Learned(b)
    decreases |a|
  {
    if a == [] {
      assert a + b == b;
    } else {
      var head := if a[0].relation == LearnedFrom then [a[0]] else [];
      assert (a + b)[0] == a[0];
      assert (a + b)[1..] == a[1..] + b;
      assert Learned(a + b) == head + Learned(a[1..] + b);
      LearnedAppend(a[1..], b);
      assert Learned(a) == head + Learned(a[1..]);
      assert head + (Learned(a[1..]) + Learned(b)) == (head + Learned(a[1..])) + Learned(b);
    }
  }

  lemma {:induction false} LearnedOfRelated(edges: seq<MemoryEdge>)
    requires forall j :: 0 <= j < |edges| ==> edges[j].relation == RelatedTo
    ensures Learned(edges) == []
    decreases |edges|
  {
    if edges != [] {
      LearnedOfRelated(edges[1..]);
    }
  }

  /** A run creates at most one node per visited element, hence at most five. */
  lemma {:induction false} RunLength(slots: seq<Element>, firstId: int, embed: Embedder, accept: UpsertAcceptor)
    ensures |Run(slots, firstId, embed, accept).created| <= |slots|
    decreases |slots|
  {
    if slots != [] {
      match Step(slots[0], firstId, embed, accept)
      case Raised =>
      case Skipped => RunLength(slots[1..], firstId, embed, accept);
      case MadeThenRaised(c) =>
      case Made(c) => RunLength(slots[1..], firstId + 1, embed, accept);
    }
  }

  lemma AtMostFiveNodes(reply: Reply, parse: JsonParser, firstId: int, embed: Embedder, accept: UpsertAcceptor)
    requires Slots(reply, parse).Some?
    ensures |Run(Slots(reply, parse).value, firstId, embed, accept).created| <= MaxTriplets
  {
    RunLength(Slots(reply, parse).value, firstId, embed, accept);
  }

  /** The complete triplets among some elements, as node contents, in order. */
  function CompleteTexts(slots: seq<Element>): seq<string> {
    if slots == [] then []
    else (if Complete(slots[0]) then [TripletText(slots[0])] else []) + CompleteTexts(slots[1..])
  }

  function Contents(cs: seq<Created>): (r: seq<string>)
    ensures |r| == |cs| && forall k :: 0 <= k < |cs| ==> r[k] == cs[k].content
  {
    seq(|cs|, k requires 0 <= k < |cs| => cs[k].content)
  }

  /**
   * Without null elements and with an index that accepts every upsert, nothing is
   * raised and each complete triplet among the slots yields one node, in order.
   */
  lemma {:induction false} RunOfWellFormed(slots: seq<Element>, firstId: int, embed: Embedder, accept: UpsertAcceptor)
    requires forall k :: 0 <= k < |slots| ==> !slots[k].NullElement?
    requires forall key :: accept(key)
    ensures !Run(slots, firstId, embed, accept).raised
    ensures Contents(Run(slots, firstId, embed, accept).created) == CompleteTexts(slots)
    decreases |slots|
  {
    if slots != [] {
      match Step(slots[0], firstId, embed, accept)
      case Skipped =>
        RunOfWellFormed(slots[1..], firstId, embed, accept);
      case Made(c) =>
        RunOfWellFormed(slots[1..], firstId + 1, embed, accept);
        var t := Run(slots[1..], firstId + 1, embed, accept);
        assert Contents([c] + t.created) == [c.content] + Contents(t.created);
    }
  }

  /**
   * The cap is taken before malformed elements are dropped: when the first of six
   * elements is incomplete and the other five are complete, the slots hold only four
   * complete triplets, and the sixth element is never read.
   */
  lemma CapBeforeFilter(es: seq<Element>, firstId: int, embed: Embedder, accept: UpsertAcceptor)
    requires |es| == 6 && !Complete(es[0]) && !es[0].NullElement?
    requires forall k :: 1 <= k < 6 ==> Complete(es[k])
    requires forall key :: accept(key)
    ensures var t := Run(es[..MaxTriplets], firstId, embed, accept);
      !t.raised && |t.created| == 4
      && Contents(t.created) == [TripletText(es[1]), TripletText(es[2]), TripletText(es[3]), TripletText(es[4])]
  {
    var slots := es[..MaxTriplets];
    assert forall k :: 0 <= k < |slots| ==> !slots[k].NullElement?;
    RunOfWellFormed(slots, firstId, embed, accept);
    assert slots == [es[0], es[1], es[2], es[3], es[4]];
    CompleteTextsOfFive(es[0], es[1], es[2], es[3], es[4]);
  }

  lemma CompleteTextsOfFive(e0: Element, e1: Element, e2: Element, e3: Element, e4: Element)
    requires !Complete(e0) && Complete(e1) && Complete(e2) && Complete(e3) && Complete(e4)
    ensures CompleteTexts([e0, e1, e2, e3, e4]) == [TripletText(e1), TripletText(e2), TripletText(e3), TripletText(e4)]
  {
    assert [e4][1..] == [];
    assert CompleteTexts([e4]) == [TripletText(e4)];
    assert [e3, e4][1..] == [e4];
    assert CompleteTexts([e3, e4]) == [TripletText(e3), TripletText(e4)];
    assert [e2, e3, e4][1..] == [e3, e4];
    assert CompleteTexts([e2, e3, e4]) == [TripletText(e2), TripletText(e3), TripletText(e4)];
    assert [e1, e2, e3, e4][1..] == [e2, e3, e4];
    assert CompleteTexts([e1, e2, e3, e4]) == [TripletText(e1), TripletText(e2), TripletText(e3), TripletText(e4)];
    assert [e0, e1, e2, e3, e4][1..] == [e1, e2, e3, e4];
  }

  /** A created node is indexed with its own embedding, and left unindexed only when that failed or the upsert threw. */
  lemma {:induction false} RunVectors(slots: seq<Element>, firstId: int, embed: Embedder, accept: UpsertAcceptor, k: nat)
    requires k < |Run(slots, firstId, embed, accept).created|
    ensures var t := Run(slots, firstId, embed, accept);
      var c := t.created[k];
      (c.vector.Some? ==> c.vector == embed(c.content))
      && (c.vector.None? ==> embed(c.content).None? || (t.raised && k == |t.created| - 1 && !accept(NodeKey(firstId + k))))
    decreases |slots|
  {
    match Step(slots[0], firstId, embed, accept)
    case Skipped =>
      RunVectors(slots[1..], firstId, embed, accept, k);
    case MadeThenRaised(c) =>
    case Made(c) =>
      if k > 0 {
        RunVectors(slots[1..], firstId + 1, embed, accept, k - 1);
        var t := Run(slots[1..], firstId + 1, embed, accept);
        assert ([c] + t.created)[k] == t.created[k - 1];
      }
  }

  // ------------------------------------------------------------------ reading fenced replies

  lemma {:induction false} RemoveFenceOfPlain(s: string, t: string, fence: string)
    requires fence != [] && fence[0] == '`' && '`' !in s
    ensures RemoveFence(s + t, fence) == s + RemoveFence(t, fence)
    decreases |s|
  {
    if s != [] {
      assert (s + t)[0] == s[0];
      assert !StartsWith(s + t, fence);
      assert (s + t)[1..] == s[1..] + t;
      RemoveFenceOfPlain(s[1..], t, fence);
    } else {
      assert s + t == t;
    }
  }

  lemma {:induction false} TrimStartSnocSpace(s: string, c: char)
    requires IsJsSpace(c)
    ensures TrimStart(s + [c]) == if TrimStart(s) == [] then [] else TrimStart(s) + [c]
    decreases |s|
  {
    if s == [] {
      assert TrimStart([c]) == TrimStart([c][1..]);
    } else if IsJsSpace(s[0]) {
      assert (s + [c])[1..] == s[1..] + [c];
      TrimStartSnocSpace(s[1..], c);
    }
  }

  lemma TrimNewline(s: string)
    ensures Trim(s + "\n") == Trim(s)
  {
    TrimStartSnocSpace(s, '\n');
    var u := TrimStart(s);
    if u != [] {
      assert (u + "\n")[..|u + "\n"| - 1] == u;
    }
  }

  /** A reply fenced as a ```json block, around a body without backquotes, is read as the trimmed body. */
  lemma FencedReply(body: string)
    requires '`' !in body
    ensures Cleaned(Trim("```json\n" + body + "\n```")) == Trim(body)
  {
    FencedReplyTrimmed(body);
    JsonFenceRemoved(body);
    BackquoteFenceRemoved(body);
    TrimNewline(body);
  }

  lemma FencedReplyTrimmed(body: string)
    ensures Trim("```json\n" + body + "\n```") == "```json\n" + body + "\n```"
  {
    var reply := "```json\n" + body + "\n```";
    assert reply[0] == '`' && reply[|reply| - 1] == '`';
    assert TrimStart(reply) == reply;
    assert TrimEnd(reply) == reply;
  }

  lemma JsonFenceRemoved(body: string)
    requires '`' !in body
    ensures RemoveFence("```json\n" + body + "\n```", "```json") == body + "\n```"
  {
    var reply := "```json\n" + body + "\n```";
    assert StartsWith(reply, "```json");
    assert reply[|"```json"|..] == "\n" + (body + "\n```");
    assert RemoveFence(reply, "```json") == RemoveFence(body + "\n```", "```json");
    RemoveFenceOfPlain(body, "\n```", "```json");
    assert RemoveFence("\n```", "```json") == "\n" + RemoveFence("```", "```json");
    assert !StartsWith("```", "```json");
    assert RemoveFence("```", "```json") == "`" + RemoveFence("``", "```json");
    assert RemoveFence("``", "```json") == "`" + RemoveFence("`", "```json");
    assert RemoveFence("`", "```json") == "`" + RemoveFence("", "```json");
  }

  lemma BackquoteFenceRemoved(body: string)
    requires '`' !in body
    ensures RemoveFence(body + "\n```", "```") == body + "\n"
  {
    RemoveFenceOfPlain(body, "\n```", "```");
    assert RemoveFence("\n```", "```") == "\n" + RemoveFence("```", "```");
    assert RemoveFence("```", "```") == [];
  }

  // ------------------------------------------------------------------ the loop

  /** The edges after one node: the `learned_from` row, then `related_to` rows from the new node. */
  ghost predicate OneNodeEdges(edges0: seq<MemoryEdge>, edges: seq<MemoryEdge>, learned: MemoryEdge, id: int) {
    |edges| >= |edges0| + 1 && edges[..|edges0| + 1] == edges0 + [learned]
    && forall j :: |edges0| + 1 <= j < |edges| ==> edges[j].relation == RelatedTo && edges[j].source == id
  }

  /** The two inserts for a complete triplet: the semantic node, then its `learned_from` edge. */
  method MakeNode(db: MemoryDb, episodicId: int, content: string, relation: string, now: int) returns (id: int)
    requires db.Valid() && HasNode(db.nodes, episodicId)
    modifies db
    ensures db.Valid() && HasNode(db.nodes, episodicId) && HasNode(db.nodes, id)
    ensures id == old(db.nextNodeId) && db.nextNodeId == id + 1 && db.nextEdgeId == old(db.nextEdgeId) + 1
    ensures db.nodes == old(db.nodes) + [SemanticRow(Created(content, relation, None), id, now)]
    ensures db.edges == old(db.edges) + [MemoryEdge(old(db.nextEdgeId), episodicId, id, LearnedFrom, LearnedWeight, now)]
  {
    var c := Created(content, relation, None);
    assert NodeInsertAccepted(SemanticInsert(c));
    var n := db.InsertNode(SemanticInsert(c), now);
    id := n.value.id;
    assert n.value == SemanticRow(c, id, now);
    assert HasNode(db.nodes, episodicId) by {
      var j :| 0 <= j < |old(db.nodes)| && old(db.nodes)[j].id == episodicId;
      assert db.nodes[j] == old(db.nodes)[j];
    }
    assert HasNode(db.nodes, id) by { assert db.nodes[|db.nodes| - 1].id == id; }
    var edge := db.InsertEdge(episodicId, id, LearnedFrom, Some(LearnedWeight), now);
  }

  /**
   * One element of the loop: for a complete triplet, the semantic node and its
   * `learned_from` edge are inserted; when the embedding succeeds the point is upserted
   * (a refusal throws), the embedding id is set and enrichment runs.
   */
  method ExtractOne(db: MemoryDb, index: Index, episodicId: int, e: Element, search: Searcher,
                    embed: Embedder, accept: UpsertAcceptor, now: int) returns (out: Outcome)
    requires db.Valid() && HasNode(db.nodes, episodicId)
    modifies db, index
    ensures db.Valid() && db.nextEdgeId >= old(db.nextEdgeId) && HasNode(db.nodes, episodicId)
    ensures out == Step(e, old(db.nextNodeId), embed, accept)
    ensures out.Skipped? || out.Raised? ==>
      db.nodes == old(db.nodes) && db.edges == old(db.edges) && db.nextNodeId == old(db.nextNodeId)
      && index.points == old(index.points)
    ensures out.Made? || out.MadeThenRaised? ==>
      var id := old(db.nextNodeId);
      db.nodes == old(db.nodes) + [SemanticRow(out.item, id, now)] && db.nextNodeId == id + 1
      && OneNodeEdges(old(db.edges), db.edges, MemoryEdge(old(db.nextEdgeId), episodicId, id, LearnedFrom, LearnedWeight, now), id)
      && index.points == (if out.item.vector.Some? then old(index.points)[NodeKey(id) := Point(out.item.vector.value, map[NodeIdField := id])]
                          else old(index.points))
  {
    out := Step(e, db.nextNodeId, embed, accept);
    if out.Skipped? || out.Raised? {
      return;
    }
    var content := TripletText(e);
    var id := MakeNode(db, episodicId, content, Shown(e.relation), now);
    ghost var withEdge := db.edges;
    ghost var learned := withEdge[|withEdge| - 1];
    assert withEdge[..|old(db.edges)| + 1] == old(db.edges) + [learned];
    var embedding := embed(content);
    if embedding.Some? {
      var key := NodeKey(id);
      var accepted := accept(key);
      index.Upsert(key, embedding.value, map[NodeIdField := id], accepted);
      if !accepted {
        return;
      }
      ghost var nodes := db.nodes;
      MemoryEnrich.KeyNode(db, index.points, SemanticRow(Created(content, Shown(e.relation), None), id, now), embedding.value, search, now);
      assert nodes[..|nodes| - 1] == old(db.nodes);
      assert db.edges[..|old(db.edges)| + 1] == withEdge[..|old(db.edges)| + 1];
    }
  }

  /** The state the run reaches: the new nodes appended, the index updated, the added edges of the right shape. */
  ghost predicate RunEffect(nodes0: seq<MemoryNode>, edges0: seq<MemoryEdge>, points0: map<string, Point>,
                            nodes: seq<MemoryNode>, edges: seq<MemoryEdge>, points: map<string, Point>,
                            episodicId: int, firstId: int, done: seq<Created>, now: int) {
    nodes == nodes0 + SemanticRows(done, firstId, now)
    && points == PointsAfter(points0, done, firstId)
    && |edges| >= |edges0| && edges[..|edges0|] == edges0
    && AddedEdges(edges[|edges0|..], episodicId, firstId, |done|)
  }

  lemma RunEffectStep(nodes0: seq<MemoryNode>, edges0: seq<MemoryEdge>, points0: map<string, Point>,
                      nodes: seq<MemoryNode>, edges: seq<MemoryEdge>, points: map<string, Point>,
                      nodes1: seq<MemoryNode>, edges1: seq<MemoryEdge>, points1: map<string, Point>,
                      episodicId: int, firstId: int, done: seq<Created>, c: Created, edgeId: int, now: int)
    requires RunEffect(nodes0, edges0, points0, nodes, edges, points, episodicId, firstId, done, now)
    requires var id := firstId + |done|;
      nodes1 == nodes + [SemanticRow(c, id, now)]
      && OneNodeEdges(edges, edges1, MemoryEdge(edgeId, episodicId, id, LearnedFrom, LearnedWeight, now), id)
      && points1 == (if c.vector.Some? then points[NodeKey(id) := Point(c.vector.value, map[NodeIdField := id])] else points)
    ensures RunEffect(nodes0, edges0, points0, nodes1, edges1, points1, episodicId, firstId, done + [c], now)
  {
    var id := firstId + |done|;
    assert SemanticRows(done + [c], firstId, now) == SemanticRows(done, firstId, now) + [SemanticRow(c, id, now)];
    assert (done + [c])[..|done + [c]| - 1] == done;
    AddedEdgesStep(edges0, edges, edges1, episodicId, firstId, done, edgeId, now);
  }

  /** The added edges keep their shape when one node's edges follow. */
  lemma AddedEdgesStep(edges0: seq<MemoryEdge>, edges: seq<MemoryEdge>, edges1: seq<MemoryEdge>,
                       episodicId: int, firstId: int, done: seq<Created>, edgeId: int, now: int)
    requires |edges| >= |edges0| && edges[..|edges0|] == edges0
    requires AddedEdges(edges[|edges0|..], episodicId, firstId, |done|)
    requires var id := firstId + |done|;
      OneNodeEdges(edges, edges1, MemoryEdge(edgeId, episodicId, id, LearnedFrom, LearnedWeight, now), id)
    ensures |edges1| >= |edges0| && edges1[..|edges0|] == edges0
    ensures AddedEdges(edges1[|edges0|..], episodicId, firstId, |done| + 1)
  {
    var id := firstId + |done|;
    var old_added := edges[|edges0|..];
    var learned := MemoryEdge(edgeId, episodicId, id, LearnedFrom, LearnedWeight, now);
    var enriched := edges1[|edges| + 1..];
    assert edges1 == edges + [learned] + enriched by {
      assert edges1 == edges1[..|edges| + 1] + edges1[|edges| + 1..];
    }
    assert edges1[..|edges0|] == edges0 by {
      assert edges1[..|edges0|] == edges[..|edges0|];
    }
    var added := edges1[|edges0|..];
    assert added == old_added + [learned] + enriched by {
      assert edges == edges0 + old_added;
    }
    LearnedStep(old_added, learned, enriched);
    AddedRelated(old_added, learned, enriched, added, firstId, |done|, edges1, |edges0|);
  }

  lemma LearnedStep(old_added: seq<MemoryEdge>, learned: MemoryEdge, enriched: seq<MemoryEdge>)
    requires learned.relation == LearnedFrom
    requires forall j :: 0 <= j < |enriched| ==> enriched[j].relation == RelatedTo
    ensures Learned(old_added + [learned] + enriched) == Learned(old_added) + [learned]
  {
    LearnedOfRelated(enriched);
    LearnedAppend(old_added + [learned], enriched);
    LearnedAppend(old_added, [learned]);
  }

  lemma AddedRelated(old_added: seq<MemoryEdge>, learned: MemoryEdge, enriched: seq<MemoryEdge>, added: seq<MemoryEdge>,
                     firstId: int, n: nat, edges1: seq<MemoryEdge>, k0: nat)
    requires added == old_added + [learned] + enriched && learned.relation == LearnedFrom
    requires forall j :: 0 <= j < |old_added| ==>
      old_added[j].relation == LearnedFrom || (old_added[j].relation == RelatedTo && firstId <= old_added[j].source < firstId + n)
    requires forall j :: 0 <= j < |enriched| ==> enriched[j].relation == RelatedTo && enriched[j].source == firstId + n
    ensures forall j :: 0 <= j < |added| ==>
      added[j].relation == LearnedFrom || (added[j].relation == RelatedTo && firstId <= added[j].source < firstId + n + 1)
  {
    forall j | 0 <= j < |added|
      ensures added[j].relation == LearnedFrom || (added[j].relation == RelatedTo && firstId <= added[j].source < firstId + n + 1)
    {
      if j < |old_added| {
        assert added[j] == old_added[j];
      } else if j > |old_added| {
        assert added[j] == enriched[j - |old_added| - 1];
      }
    }
  }

  /** The done list after one element: its node, if it made one. */
  function NextDone(done: seq<Created>, out: Outcome): (r: seq<Created>)
    ensures |r| <= |done| + 1
  {
    if out.Made? || out.MadeThenRaised? then done + [out.item] else done
  }

  /**
   * The loop's invariant over plain values: `done` holds the nodes made so far, `rest`
   * is the trace of the elements still to visit, and the tables and the index show them.
   */
  ghost predicate SlotsInv(nodes0: seq<MemoryNode>, edges0: seq<MemoryEdge>, points0: map<string, Point>,
                           nodes: seq<MemoryNode>, edges: seq<MemoryEdge>, points: map<string, Point>, nextNodeId: int,
                           episodicId: int, firstId: int, es: seq<Element>, i: nat, done: seq<Created>, rest: Trace, t: Trace,
                           embed: Embedder, accept: UpsertAcceptor, now: int) {
    i <= |es| && nextNodeId == firstId + |done|
    && rest == Run(es[i..], firstId + |done|, embed, accept)
    && t.created == done + rest.created && t.raised == rest.raised
    && RunEffect(nodes0, edges0, points0, nodes, edges, points, episodicId, firstId, done, now)
  }

  /** Before the first pass nothing is created and the rest of the run is all of it. */
  lemma SlotsStart(nodes: seq<MemoryNode>, edges: seq<MemoryEdge>, points: map<string, Point>, firstId: int,
                   episodicId: int, es: seq<Element>, embed: Embedder, accept: UpsertAcceptor, now: int)
    ensures var t := Run(es, firstId, embed, accept);
      SlotsInv(nodes, edges, points, nodes, edges, points, firstId, episodicId, firstId, es, 0, [], t, t, embed, accept, now)
  {
    TakeAll(edges);
    DropNone(es);
  }

  /** One pass of the loop body, from the invariant and what ExtractOne promises. */
  lemma SlotsStep(nodes0: seq<MemoryNode>, edges0: seq<MemoryEdge>, points0: map<string, Point>,
                  nodes: seq<MemoryNode>, edges: seq<MemoryEdge>, points: map<string, Point>, nextNodeId: int,
                  nodes1: seq<MemoryNode>, edges1: seq<MemoryEdge>, points1: map<string, Point>, nextNodeId1: int,
                  episodicId: int, firstId: int, es: seq<Element>, i: nat, done: seq<Created>, rest: Trace, t: Trace,
                  embed: Embedder, accept: UpsertAcceptor, out: Outcome, edgeId: int, now: int)
    requires i < |es|
    requires SlotsInv(nodes0, edges0, points0, nodes, edges, points, nextNodeId, episodicId, firstId, es, i, done, rest, t, embed, accept, now)
    requires out == Step(es[i], nextNodeId, embed, accept)
    requires out.Skipped? || out.Raised? ==>
      nodes1 == nodes && edges1 == edges && nextNodeId1 == nextNodeId && points1 == points
    requires out.Made? || out.MadeThenRaised? ==>
      nodes1 == nodes + [SemanticRow(out.item, nextNodeId, now)] && nextNodeId1 == nextNodeId + 1
      && OneNodeEdges(edges, edges1, MemoryEdge(edgeId, episodicId, nextNodeId, LearnedFrom, LearnedWeight, now), nextNodeId)
      && points1 == (if out.item.vector.Some? then points[NodeKey(nextNodeId) := Point(out.item.vector.value, map[NodeIdField := nextNodeId])]
                     else points)
    ensures (out.Raised? || out.MadeThenRaised?) ==>
      t.raised && t.created == NextDone(done, out) && nextNodeId1 == firstId + |t.created|
      && RunEffect(nodes0, edges0, points0, nodes1, edges1, points1, episodicId, firstId, t.created, now)
    ensures out.Made? || out.Skipped? ==>
      SlotsInv(nodes0, edges0, points0, nodes1, edges1, points1, nextNodeId1, episodicId, firstId, es, i + 1,
               NextDone(done, out), Run(es[i + 1..], firstId + |NextDone(done, out)|, embed, accept), t, embed, accept, now)
  {
    assert t == Trace(done + rest.created, rest.raised);
    TraceAdvance(t, done, es, i, nextNodeId, embed, accept, out);
    if out.Made? || out.MadeThenRaised? {
      RunEffectStep(nodes0, edges0, points0, nodes, edges, points, nodes1, edges1, points1,
                    episodicId, firstId, done, out.item, edgeId, now);
    }
  }

  /** One pass of the loop body: ExtractOne on element i, with the invariant carried over. */
  method VisitSlot(db: MemoryDb, index: Index, episodicId: int, es: seq<Element>, i: nat,
                   embed: Embedder, accept: UpsertAcceptor, search: Searcher, now: int,
                   ghost nodes0: seq<MemoryNode>, ghost edges0: seq<MemoryEdge>, ghost points0: map<string, Point>,
                   ghost firstId: int, ghost done: seq<Created>, ghost rest: Trace, ghost t: Trace)
    returns (out: Outcome, ghost done': seq<Created>, ghost rest': Trace)
    requires i < |es| && db.Valid() && HasNode(db.nodes, episodicId)
    requires SlotsInv(nodes0, edges0, points0, db.nodes, db.edges, index.points, db.nextNodeId,
                      episodicId, firstId, es, i, done, rest, t, embed, accept, now)
    modifies db, index
    ensures db.Valid() && HasNode(db.nodes, episodicId) && db.nextEdgeId >= old(db.nextEdgeId)
    ensures (out.Raised? || out.MadeThenRaised?) ==>
      t.raised && t.created == NextDone(done, out) && db.nextNodeId == firstId + |t.created|
      && RunEffect(nodes0, edges0, points0, db.nodes, db.edges, index.points, episodicId, firstId, t.created, now)
    ensures done' == NextDone(done, out)
    ensures out.Made? || out.Skipped? ==>
      rest' == Run(es[i + 1..], firstId + |done'|, embed, accept)
      && SlotsInv(nodes0, edges0, points0, db.nodes, db.edges, index.points, db.nextNodeId, episodicId, firstId, es, i + 1,
                  done', rest', t, embed, accept, now)
  {
    ghost var nodes, edges, points, nextNodeId, edgeId := db.nodes, db.edges, index.points, db.nextNodeId, db.nextEdgeId;
    out := ExtractOne(db, index, episodicId, es[i], search, embed, accept, now);
    done' := NextDone(done, out);
    rest' := Run(es[i + 1..], firstId + |done'|, embed, accept);
    SlotsStep(nodes0, edges0, points0, nodes, edges, points, nextNodeId,
              db.nodes, db.edges, index.points, db.nextNodeId,
              episodicId, firstId, es, i, done, rest, t, embed, accept, out, edgeId, now);
  }

  /** The loop over the visited elements, from the first node id on. */
  method RunSlots(db: MemoryDb, index: Index, episodicId: int, es: seq<Element>,
                  embed: Embedder, accept: UpsertAcceptor, search: Searcher, now: int)
    returns (raised: bool)
    requires db.Valid() && HasNode(db.nodes, episodicId)
    modifies db, index
    ensures db.Valid() && db.nextEdgeId >= old(db.nextEdgeId)
    ensures var t := Run(es, old(db.nextNodeId), embed, accept);
      raised == t.raised && db.nextNodeId == old(db.nextNodeId) + |t.created|
      && RunEffect(old(db.nodes), old(db.edges), old(index.points), db.nodes, db.edges, index.points,
                   episodicId, old(db.nextNodeId), t.created, now)
  {
    ghost var firstId := db.nextNodeId;
    ghost var nodes0, edges0, points0 := db.nodes, db.edges, index.points;
    ghost var t := Run(es, firstId, embed, accept);
    ghost var done: seq<Created> := [];
    ghost var rest := t;
    var i := 0;
    raised := false;
    SlotsStart(nodes0, edges0, points0, firstId, episodicId, es, embed, accept, now);
    while i < |es|
      invariant db.Valid() && HasNode(db.nodes, episodicId) && db.nextEdgeId >= old(db.nextEdgeId)
      invariant SlotsInv(nodes0, edges0, points0, db.nodes, db.edges, index.points, db.nextNodeId,
                         episodicId, firstId, es, i, done, rest, t, embed, accept, now)
    {
      var out;
      out, done, rest := VisitSlot(db, index, episodicId, es, i, embed, accept, search, now,
                                   nodes0, edges0, points0, firstId, done, rest, t);
      if out.Raised? || out.MadeThenRaised? {
        raised := true;
        break;
      }
      i := i + 1;
    }
    if !raised {
      SlotsEnd(nodes0, edges0, points0, db.nodes, db.edges, index.points, db.nextNodeId,
               episodicId, firstId, es, i, done, rest, t, embed, accept, now);
    }
  }

  lemma SlotsEnd(nodes0: seq<MemoryNode>, edges0: seq<MemoryEdge>, points0: map<string, Point>,
                 nodes: seq<MemoryNode>, edges: seq<MemoryEdge>, points: map<string, Point>, nextNodeId: int,
                 episodicId: int, firstId: int, es: seq<Element>, i: nat, done: seq<Created>, rest: Trace, t: Trace,
                 embed: Embedder, accept: UpsertAcceptor, now: int)
    requires i >= |es|
    requires SlotsInv(nodes0, edges0, points0, nodes, edges, points, nextNodeId, episodicId, firstId, es, i, done, rest, t, embed, accept, now)
    ensures !t.raised && nextNodeId == firstId + |t.created|
    ensures RunEffect(nodes0, edges0, points0, nodes, edges, points, episodicId, firstId, t.created, now)
  {
    assert es[i..] == [];
    assert t.created == done + [] == done;
  }

  /** The run's trace after one more element, in terms of that element's outcome. */
  lemma TraceAdvance(t: Trace, done: seq<Created>, es: seq<Element>, i: nat, id: int,
                     embed: Embedder, accept: UpsertAcceptor, out: Outcome)
    requires i < |es| && out == Step(es[i], id, embed, accept)
    requires t == Trace(done + Run(es[i..], id, embed, accept).created, Run(es[i..], id, embed, accept).raised)
    ensures out.Raised? ==> t == Trace(done, true)
    ensures out.MadeThenRaised? ==> t == Trace(done + [out.item], true)
    ensures out.Skipped? ==> t == Trace(done + Run(es[i + 1..], id, embed, accept).created, Run(es[i + 1..], id, embed, accept).raised)
    ensures out.Made? ==>
      t == Trace((done + [out.item]) + Run(es[i + 1..], id + 1, embed, accept).created, Run(es[i + 1..], id + 1, embed, accept).raised)
  {
    assert es[i..][0] == es[i];
    assert es[i..][1..] == es[i + 1..];
    if out.Raised? {
      assert done + [] == done;
    } else if out.Made? {
      var rest := Run(es[i + 1..], id + 1, embed, accept);
      assert done + ([out.item] + rest.created) == (done + [out.item]) + rest.created;
    }
  }

  /**
   * `extractTriplets(episodicNodeId)`. The function returns without effect unless the
   * source node exists and is episodic and the reply reads as an array; otherwise the
   * run's trace says which nodes are made and whether an exception escapes (`raised`).
   */
  method ExtractTriplets(db: MemoryDb, index: Index, episodicId: int, complete: Completion, parse: JsonParser,
                         embed: Embedder, accept: UpsertAcceptor, search: Searcher, now: int)
    returns (raised: bool)
    requires db.Valid()
    modifies db, index
    ensures db.Valid() && db.nextEdgeId >= old(db.nextEdgeId)
    ensures var src := FindNode(old(db.nodes), episodicId);
      var slots := if src.Some? && src.value.nodeType == Episodic
                   then Slots(complete(Take(src.value.content, MaxPromptChars)), parse) else None;
      if slots.None? then
        !raised && db.nodes == old(db.nodes) && db.edges == old(db.edges) && db.nextNodeId == old(db.nextNodeId)
        && index.points == old(index.points)
      else
        var t := Run(slots.value, old(db.nextNodeId), embed, accept);
        raised == t.raised && db.nextNodeId == old(db.nextNodeId) + |t.created|
        && RunEffect(old(db.nodes), old(db.edges), old(index.points), db.nodes, db.edges, index.points,
                     episodicId, old(db.nextNodeId), t.created, now)
  {
    var src := FindNode(db.nodes, episodicId);
    if src.None? || src.value.nodeType != Episodic {
      return false;
    }
    var slots := Slots(complete(Take(src.value.content, MaxPromptChars)), parse);
    if slots.None? {
      return false;
    }
    raised := RunSlots(db, index, episodicId, slots.value, embed, accept, search, now);
  }
}
