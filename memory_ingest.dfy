/**
 * `ingestActivityAsMemory`: an important activity event becomes an episodic memory node,
 * embedded from its summary and enriched; every failure after the action filter is
 * swallowed, so the operation never raises.
 */
module MemoryIngest {
  import opened Wrappers
  import opened JsText
  import opened MemorySchema
  import opened VectorIndex
  import MemoryEnrich

  /** The actions that deserve a memory node. */
  const ImportantActions: set<string> := {
    "task.completed", "task.failed", "task.created",
    "error", "deployment", "deployment.success", "deployment.failed",
    "agent.error", "agent.completed",
    "mission.completed", "mission.failed"
  }

  const ContextChars: nat := 500
  const BeforeChars: nat := 200

  /** The event parameters; the optional strings are absent for both `undefined` and `null`. */
  datatype Event = Event(entityType: string, entityId: int, action: string,
                         actor: Option<string>, oldValue: Option<string>, newValue: Option<string>)

  predicate Truthy(f: Option<string>) { f.Some? && f.value != "" }

  /** The five candidate lines, `null` where a part is absent or empty. */
  function Parts(ev: Event): seq<Option<string>> {
    [Some("Action: " + ev.action),
     Some("Entity: " + ev.entityType + " #" + IntToString(ev.entityId)),
     if Truthy(ev.actor) then Some("Agent: " + ev.actor.value) else None,
     if Truthy(ev.newValue) then Some("Context: " + Take(ev.newValue.value, ContextChars)) else None,
     if Truthy(ev.oldValue) then Some("Before: " + Take(ev.oldValue.value, BeforeChars)) else None]
  }

  /** `.filter(Boolean)`: the present, non-empty strings, in order. */
  function Kept(parts: seq<Option<string>>): (r: seq<string>)
    ensures |r| <= |parts|
  {
    if parts == [] then []
    else (if Truthy(parts[0]) then [parts[0].value] else []) + Kept(parts[1..])
  }

  function Content(ev: Event): string {
    Join(Kept(Parts(ev)), "\n")
  }

  function Summary(ev: Event): string {
    ev.action + " on " + ev.entityType + " #" + IntToString(ev.entityId)
      + (if Truthy(ev.actor) then " by " + ev.actor.value else "")
  }

  /** The insert's values: type episodic, entity id as a decimal string, tags [action, entityType]. */
  function IngestInsert(ev: Event): NodeInsert {
    NodeInsert("episodic", Some(Content(ev)), Some(Summary(ev)), Some(ev.entityType),
               Some(IntToString(ev.entityId)), Some([ev.action, ev.entityType]), None, Some("system"))
  }

  // ------------------------------------------------------------------ properties

  function Optional(b: bool, line: string): seq<string> {
    if b then [line] else []
  }

  /**
   * The content's lines: the action and entity lines, then the agent, context (first 500
   * characters of the new value) and before (first 200 of the old value) lines, each only
   * when its part is present and non-empty.
   */
  lemma ContentLines(ev: Event)
    ensures Kept(Parts(ev)) ==
      ["Action: " + ev.action, "Entity: " + ev.entityType + " #" + IntToString(ev.entityId)]
      + Optional(Truthy(ev.actor), "Agent: " + ev.actor.GetOr(""))
      + Optional(Truthy(ev.newValue), "Context: " + Take(ev.newValue.GetOr(""), ContextChars))
      + Optional(Truthy(ev.oldValue), "Before: " + Take(ev.oldValue.GetOr(""), BeforeChars))
  {
    var p := Parts(ev);
    KeptFive(p[0].value, p[1].value, p[2], p[3], p[4]);
    assert p == [Some(p[0].value), Some(p[1].value), p[2], p[3], p[4]];
    KeptOne(p[2]);
    KeptOne(p[3]);
    KeptOne(p[4]);
  }

  /** Two present lines, then three optional ones. */
  lemma KeptFive(a: string, b: string, c: Option<string>, d: Option<string>, e: Option<string>)
    requires a != "" && b != ""
    ensures Kept([Some(a), Some(b), c, d, e]) == [a, b] + Kept([c]) + Kept([d]) + Kept([e])
  {
    var p := [Some(a), Some(b), c, d, e];
    assert p == [Some(a)] + [Some(b)] + [c] + [d] + [e];
    KeptAppend([Some(a)] + [Some(b)] + [c] + [d], [e]);
    KeptAppend([Some(a)] + [Some(b)] + [c], [d]);
    KeptAppend([Some(a)] + [Some(b)], [c]);
    KeptAppend([Some(a)], [Some(b)]);
    KeptOne(Some(a));
    KeptOne(Some(b));
    assert [a] + [b] == [a, b];
  }

  lemma {:induction false} KeptAppend(x: seq<Option<string>>, y: seq<Option<string>>)
    ensures Kept(x + y) == Kept(x) + Kept(y)
    decreases |x|
  {
    if x == [] {
      assert x + y == y;
    } else {
      var head := if Truthy(x[0]) then [x[0].value] else [];
      assert (x + y)[0] == x[0];
      assert (x + y)[1..] == x[1..] + y;
      assert Kept(x + y) == head + Kept(x[1..] + y);
      KeptAppend(x[1..], y);
      assert head + (Kept(x[1..]) + Kept(y)) == (head + Kept(x[1..])) + Kept(y);
    }
  }

  lemma KeptOne(x: Option<string>)
    ensures Kept([x]) == if Truthy(x) then [x.value] else []
  {
    assert [x][1..] == [];
  }

  /** The actor part is a suffix of the summary, present only with a non-empty actor. */
  lemma SummaryNamesActor(ev: Event)
    ensures Truthy(ev.actor) ==> Summary(ev) == Summary(ev.(actor := None)) + " by " + ev.actor.value
    ensures !Truthy(ev.actor) ==> Summary(ev) == Summary(ev.(actor := None))
  {
  }

  /**
   * The insert is accepted exactly when the entity type is a label of the store's enum and
   * the id's decimal form fits the varchar column: an event on a project or a mission
   * stores nothing.
   */
  lemma IngestAcceptedIff(ev: Event)
    ensures NodeInsertAccepted(IngestInsert(ev)) <==>
      ParseEntityType(ev.entityType).Some? && |IntToString(ev.entityId)| <= VarcharLimit
  {
    assert ParseNodeType("episodic") == Some(Episodic);
    assert ParseCreator("system") == Some(BySystem);
  }

  lemma ProjectEventsRejected(ev: Event)
    requires ev.entityType == "project" || ev.entityType == "mission"
    ensures !NodeInsertAccepted(IngestInsert(ev))
  {
  }

  /**
   * The stored row: an episodic node with the content and summary above, tags
   * [action, entityType], creator system, no embedding id yet, and an entity id whose
   * decimal text parses back to the event's id.
   */
  lemma IngestedRow(ev: Event, id: int, now: int)
    requires NodeInsertAccepted(IngestInsert(ev))
    ensures var n := NodeRow(IngestInsert(ev), id, now);
      n.nodeType == Episodic && n.content == Content(ev) && n.summary == Some(Summary(ev))
      && n.tags == [ev.action, ev.entityType] && n.createdBy == BySystem && n.embeddingId.None?
      && n.entityId.Some? && ParseInt(n.entityId.value) == Some(ev.entityId)
  {
    assert ParseNodeType("episodic") == Some(Episodic);
    ParseIntOfString(ev.entityId);
  }

  // ------------------------------------------------------------------ the operation

  /**
   * The event is ingested in sequence: the insert, then, when the summary's embedding
   * succeeds, the upsert of point "node-<id>" with payload `nodeId`, the embedding id and
   * enrichment. A rejected insert or upsert throws inside the try block and is swallowed.
   */
  method Ingest(db: MemoryDb, index: Index, ev: Event, embed: Embedder, accept: UpsertAcceptor,
                search: Searcher, now: int)
    requires db.Valid()
    modifies db, index
    ensures db.Valid() && db.nextEdgeId >= old(db.nextEdgeId)
    ensures ev.action !in ImportantActions || !NodeInsertAccepted(IngestInsert(ev)) ==>
      db.nodes == old(db.nodes) && db.edges == old(db.edges) && db.nextNodeId == old(db.nextNodeId)
      && db.nextEdgeId == old(db.nextEdgeId) && index.points == old(index.points)
    ensures ev.action in ImportantActions && NodeInsertAccepted(IngestInsert(ev)) ==>
      var id := old(db.nextNodeId);
      var row := NodeRow(IngestInsert(ev), id, now);
      var v := embed(Summary(ev));
      db.nextNodeId == id + 1
      && |db.edges| >= |old(db.edges)| && db.edges[..|old(db.edges)|] == old(db.edges)
      && (forall j :: |old(db.edges)| <= j < |db.edges| ==> db.edges[j].relation == RelatedTo && db.edges[j].source == id)
      && (if v.Some? && accept(NodeKey(id)) then
            db.nodes == old(db.nodes) + [row.(embeddingId := Some(NodeKey(id)))]
            && index.points == old(index.points)[NodeKey(id) := Point(v.value, map[NodeIdField := id])]
          else
            db.nodes == old(db.nodes) + [row] && db.edges == old(db.edges) && index.points == old(index.points))
  {
    if ev.action !in ImportantActions {
      return;
    }
    var n := db.InsertNode(IngestInsert(ev), now);
    if n.None? {
      return;
    }
    var embedding := embed(Summary(ev));
    if embedding.Some? {
      var key := NodeKey(n.value.id);
      var accepted := accept(key);
      index.Upsert(key, embedding.value, map[NodeIdField := n.value.id], accepted);
      if !accepted {
        return;
      }
      ghost var nodes := db.nodes;
      MemoryEnrich.KeyNode(db, index.points, n.value, embedding.value, search, now);
      assert nodes[..|nodes| - 1] == old(db.nodes);
    }
  }
}
