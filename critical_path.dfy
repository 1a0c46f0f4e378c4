/**
 * `computeCriticalPath`: longest duration-weighted dependency chain with Kahn's
 * topological sort. `dist[v]` starts at v's duration and grows to `dist[u] + duration(v)`
 * when a dependency u of v is dequeued; the path is traced back along `prev` from the
 * node with the largest `dist`.
 */
module CriticalPath {
  import opened Wrappers

  datatype TaskNode = TaskNode(id: int, duration: real, deps: seq<int>)

  /** The callers pass rows of the task table, whose ids are a primary key. */
  ghost predicate UniqueIds(tasks: seq<TaskNode>) {
    forall i, j :: 0 <= i < j < |tasks| ==> tasks[i].id != tasks[j].id
  }

  function IdSet(tasks: seq<TaskNode>): set<int> {
    set i | 0 <= i < |tasks| :: tasks[i].id
  }

  lemma IdSetSnoc(tasks: seq<TaskNode>)
    requires tasks != []
    ensures IdSet(tasks) == IdSet(tasks[..|tasks| - 1]) + {tasks[|tasks| - 1].id}
  {
    var init := tasks[..|tasks| - 1];
    forall x | x in IdSet(tasks) ensures x in IdSet(init) + {tasks[|tasks| - 1].id} {
      var i :| 0 <= i < |tasks| && tasks[i].id == x;
      if i < |tasks| - 1 {
        assert init[i] == tasks[i];
      }
    }
    forall x | x in IdSet(init) ensures x in IdSet(tasks) {
      var i :| 0 <= i < |init| && init[i].id == x;
      assert tasks[i] == init[i];
    }
  }

  /** `new Map(taskNodes.map(t => [t.id, t]))`: a later task with the same id replaces an earlier one. */
  function NodeMap(tasks: seq<TaskNode>): (m: map<int, TaskNode>)
    ensures m.Keys == IdSet(tasks)
  {
    if tasks == [] then map[]
    else
      IdSetSnoc(tasks);
      NodeMap(tasks[..|tasks| - 1])[tasks[|tasks| - 1].id := tasks[|tasks| - 1]]
  }

  lemma {:induction false} NodeMapAt(tasks: seq<TaskNode>, i: nat)
    requires UniqueIds(tasks) && i < |tasks|
    ensures NodeMap(tasks)[tasks[i].id] == tasks[i]
    decreases |tasks|
  {
    var init := tasks[..|tasks| - 1];
    if i < |tasks| - 1 {
      assert init[i] == tasks[i];
      NodeMapAt(init, i);
    }
  }

  /** The ids `id` is pushed under `d` while scanning one task's `deps`, in order. */
  function Occ(ds: seq<int>, d: int, id: int): seq<int> {
    if ds == [] then []
    else Occ(ds[..|ds| - 1], d, id) + (if ds[|ds| - 1] == d then [id] else [])
  }

  lemma {:induction false} OccCount(ds: seq<int>, d: int, id: int, v: int)
    ensures multiset(Occ(ds, d, id))[v] == if v == id then multiset(ds)[d] else 0
    decreases |ds|
  {
    if ds != [] {
      var init := ds[..|ds| - 1];
      OccCount(init, d, id, v);
      assert ds == init + [ds[|ds| - 1]];
      assert multiset(Occ(ds, d, id)) == multiset(Occ(init, d, id)) + multiset(if ds[|ds| - 1] == d then [id] else []);
    }
  }

  function AdjGet(adj: map<int, seq<int>>, d: int): seq<int> {
    if d in adj then adj[d] else []
  }

  /** The adjacency lists agree with the task table: v appears in adj(d) as often as d in v's deps. */
  ghost predicate AdjCounts(nm: map<int, TaskNode>, adj: map<int, seq<int>>) {
    forall d, v :: multiset(AdjGet(adj, d))[v] == if v in nm then multiset(nm[v].deps)[d] else 0
  }

  // ------------------------------------------------------------------ the two set-up loops

  /** `adj[dep].push(id)` for each dep of `ds`, in order. */
  function PushAll(m: map<int, seq<int>>, ds: seq<int>, id: int): map<int, seq<int>> {
    if ds == [] then m
    else
      var m' := PushAll(m, ds[..|ds| - 1], id);
      m'[ds[|ds| - 1] := AdjGet(m', ds[|ds| - 1]) + [id]]
  }

  /** `adj` after the first loop. */
  function AdjMap(tasks: seq<TaskNode>): map<int, seq<int>> {
    if tasks == [] then map[]
    else PushAll(AdjMap(tasks[..|tasks| - 1]), tasks[|tasks| - 1].deps, tasks[|tasks| - 1].id)
  }

  lemma {:induction false} PushAllGet(m: map<int, seq<int>>, ds: seq<int>, id: int, d: int)
    ensures AdjGet(PushAll(m, ds, id), d) == AdjGet(m, d) + Occ(ds, d, id)
    decreases |ds|
  {
    if ds != [] {
      PushAllGet(m, ds[..|ds| - 1], id, d);
      if ds[|ds| - 1] == d {
        assert AdjGet(m, d) + Occ(ds[..|ds| - 1], d, id) + [id] == AdjGet(m, d) + (Occ(ds[..|ds| - 1], d, id) + [id]);
      }
    }
  }

  /** Each listing of d in the deps of task v puts v once into d's adjacency list. */
  lemma {:induction false} AdjCount(tasks: seq<TaskNode>, d: int, v: int)
    requires UniqueIds(tasks)
    ensures multiset(AdjGet(AdjMap(tasks), d))[v] == if v in IdSet(tasks) then multiset(NodeMap(tasks)[v].deps)[d] else 0
    decreases |tasks|
  {
    if tasks != [] {
      var init := tasks[..|tasks| - 1];
      var t := tasks[|tasks| - 1];
      assert UniqueIds(init) by {
        forall i, j | 0 <= i < j < |init| ensures init[i].id != init[j].id {
          assert init[i] == tasks[i] && init[j] == tasks[j];
        }
      }
      AdjCount(init, d, v);
      OccCount(t.deps, d, t.id, v);
      PushAllGet(AdjMap(init), t.deps, t.id, d);
      IdSetSnoc(tasks);
      assert multiset(AdjGet(AdjMap(tasks), d)) == multiset(AdjGet(AdjMap(init), d)) + multiset(Occ(t.deps, d, t.id));
      forall i | 0 <= i < |init| ensures init[i].id != t.id {
        assert init[i] == tasks[i];
      }
    }
  }

  /** The first loop's body for one task t: `adj[dep].push(t.id)` for each listed dep, in order. */
  method PushDeps(adj0: map<int, seq<int>>, t: TaskNode) returns (adj: map<int, seq<int>>)
    ensures adj == PushAll(adj0, t.deps, t.id)
  {
    adj := adj0;
    var k := 0;
    while k < |t.deps|
      invariant 0 <= k <= |t.deps|
      invariant adj == PushAll(adj0, t.deps[..k], t.id)
    {
      assert t.deps[..k + 1][..k] == t.deps[..k];
      adj := adj[t.deps[k] := AdjGet(adj, t.deps[k]) + [t.id]];
      k := k + 1;
    }
    assert t.deps[..k] == t.deps;
  }

  /** `inDegree` after the first loop: each id with its task's number of listed deps. */
  function DegreeMap(tasks: seq<TaskNode>): map<int, int> {
    if tasks == [] then map[]
    else DegreeMap(tasks[..|tasks| - 1])[tasks[|tasks| - 1].id := |tasks[|tasks| - 1].deps|]
  }

  lemma {:induction false} DegreeMapIs(tasks: seq<TaskNode>, v: int)
    ensures v in DegreeMap(tasks) <==> v in IdSet(tasks)
    ensures v in DegreeMap(tasks) ==> DegreeMap(tasks)[v] == |NodeMap(tasks)[v].deps|
    decreases |tasks|
  {
    if tasks != [] {
      DegreeMapIs(tasks[..|tasks| - 1], v);
      IdSetSnoc(tasks);
    }
  }

  /** The first loop: `inDegree[t.id] := t.deps.length` and the task's deps are pushed. */
  method BuildIndex(tasks: seq<TaskNode>) returns (adj: map<int, seq<int>>, inDegree: map<int, int>)
    ensures adj == AdjMap(tasks)
    ensures inDegree == DegreeMap(tasks)
  {
    adj, inDegree := map[], map[];
    var i := 0;
    while i < |tasks|
      invariant 0 <= i <= |tasks|
      invariant adj == AdjMap(tasks[..i])
      invariant inDegree == DegreeMap(tasks[..i])
    {
      assert tasks[..i + 1][..i] == tasks[..i];
      inDegree := inDegree[tasks[i].id := |tasks[i].deps|];
      adj := PushDeps(adj, tasks[i]);
      i := i + 1;
    }
    assert tasks[..i] == tasks;
  }

  /** The ids of the tasks without dependencies, in task order: the initial queue. */
  function Roots(tasks: seq<TaskNode>): seq<int> {
    if tasks == [] then []
    else Roots(tasks[..|tasks| - 1]) + (if tasks[|tasks| - 1].deps == [] then [tasks[|tasks| - 1].id] else [])
  }

  /** `dist` after the second loop: each id with its task's duration. */
  function DurMap(tasks: seq<TaskNode>): map<int, real> {
    if tasks == [] then map[]
    else DurMap(tasks[..|tasks| - 1])[tasks[|tasks| - 1].id := tasks[|tasks| - 1].duration]
  }

  lemma {:induction false} DurMapIs(tasks: seq<TaskNode>, v: int)
    ensures v in DurMap(tasks) <==> v in IdSet(tasks)
    ensures v in DurMap(tasks) ==> DurMap(tasks)[v] == NodeMap(tasks)[v].duration
    decreases |tasks|
  {
    if tasks != [] {
      DurMapIs(tasks[..|tasks| - 1], v);
      IdSetSnoc(tasks);
    }
  }

  /** The second loop: `dist[t.id] := t.duration`, and the tasks without deps are queued. */
  method InitDist(tasks: seq<TaskNode>) returns (dist: map<int, real>, queue: seq<int>)
    ensures dist == DurMap(tasks)
    ensures queue == Roots(tasks)
  {
    dist, queue := map[], [];
    var i := 0;
    while i < |tasks|
      invariant 0 <= i <= |tasks|
      invariant dist == DurMap(tasks[..i])
      invariant queue == Roots(tasks[..i])
    {
      assert tasks[..i + 1][..i] == tasks[..i];
      dist := dist[tasks[i].id := tasks[i].duration];
      if tasks[i].deps == [] {
        queue := queue + [tasks[i].id];
      }
      i := i + 1;
    }
    assert tasks[..i] == tasks;
  }

  lemma {:induction false} RootsMembers(tasks: seq<TaskNode>, v: int)
    requires UniqueIds(tasks)
    ensures v in Roots(tasks) <==> v in IdSet(tasks) && NodeMap(tasks)[v].deps == []
    decreases |tasks|
  {
    if tasks != [] {
      var init := tasks[..|tasks| - 1];
      var t := tasks[|tasks| - 1];
      UniquePrefix(tasks);
      RootsMembers(init, v);
      IdSetSnoc(tasks);
      forall i | 0 <= i < |init| ensures init[i].id != t.id {
        assert init[i] == tasks[i];
      }
    }
  }

  lemma {:induction false} RootsDistinct(tasks: seq<TaskNode>)
    requires UniqueIds(tasks)
    ensures Distinct(Roots(tasks))
    decreases |tasks|
  {
    if tasks != [] {
      var init := tasks[..|tasks| - 1];
      var t := tasks[|tasks| - 1];
      UniquePrefix(tasks);
      RootsDistinct(init);
      if t.deps == [] {
        forall i | 0 <= i < |init| ensures init[i].id != t.id {
          assert init[i] == tasks[i];
        }
        RootsMembers(init, t.id);
      }
    }
  }

  lemma UniquePrefix(tasks: seq<TaskNode>)
    requires UniqueIds(tasks) && tasks != []
    ensures UniqueIds(tasks[..|tasks| - 1])
  {
    var init := tasks[..|tasks| - 1];
    forall i, j | 0 <= i < j < |init| ensures init[i].id != init[j].id {
      assert init[i] == tasks[i] && init[j] == tasks[j];
    }
  }

  // ------------------------------------------------------------------ the Kahn loop

  /** No id occurs twice. */
  ghost predicate Distinct(p: seq<int>) {
    forall x :: multiset(p)[x] <= 1
  }

  /** A later entry of a distinct sequence does not occur before it. */
  lemma DistinctAt(p: seq<int>, h: nat)
    requires Distinct(p) && h < |p|
    ensures p[h] !in p[..h]
  {
    var x := p[h];
    assert p == p[..h] + [x] + p[h + 1..];
    assert multiset(p)[x] == multiset(p[..h])[x] + 1 + multiset(p[h + 1..])[x];
    assert multiset(p)[x] <= 1;
  }

  ghost predicate InTable(nm: map<int, TaskNode>, p: seq<int>) {
    forall k :: 0 <= k < |p| ==> p[k] in nm
  }

  /** Every dependency of a dequeued task was dequeued before it. */
  ghost predicate Topological(nm: map<int, TaskNode>, p: seq<int>) {
    forall k, w :: 0 <= k < |p| && p[k] in nm && w in nm[p[k]].deps ==> w in p[..k]
  }

  ghost predicate Keys(nm: map<int, TaskNode>, dist: map<int, real>, prev: map<int, int>,
                       inDegree: map<int, int>, pending: map<int, multiset<int>>) {
    dist.Keys == nm.Keys && inDegree.Keys == nm.Keys && pending.Keys == nm.Keys && prev.Keys <= nm.Keys
  }

  /** `p` is every id ever queued; the first h have been dequeued and `p[h - 1]`'s list is scanned up to j. */
  ghost predicate Cursor(adj: map<int, seq<int>>, queue: seq<int>, p: seq<int>, h: nat, j: nat) {
    h <= |p| && queue == p[h..] && (h == 0 ==> j == 0) && (h > 0 ==> j <= |AdjGet(adj, p[h - 1])|)
  }

  /**
   * The listings of w in v's deps not yet consumed: none once w has been dequeued and its
   * list scanned, the unscanned part of its list while it is being processed, all of them before.
   */
  ghost function Expected(nm: map<int, TaskNode>, adj: map<int, seq<int>>, p: seq<int>, h: nat, j: nat, v: int, w: int): nat
    requires h <= |p|
  {
    if w in p[..h] then
      if w == p[h - 1] && j <= |AdjGet(adj, w)| then multiset(AdjGet(adj, w)[j..])[v] else 0
    else if v in nm then multiset(nm[v].deps)[w] else 0
  }

  /** `inDegree[v]` counts v's unconsumed dependency listings. */
  ghost predicate DegreeCounts(nm: map<int, TaskNode>, inDegree: map<int, int>, pending: map<int, multiset<int>>)
    requires inDegree.Keys == nm.Keys && pending.Keys == nm.Keys
  {
    forall v :: v in nm ==> inDegree[v] == |pending[v]|
  }

  ghost predicate PendingExpected(nm: map<int, TaskNode>, adj: map<int, seq<int>>, pending: map<int, multiset<int>>,
                                  p: seq<int>, h: nat, j: nat)
    requires h <= |p| && pending.Keys == nm.Keys
  {
    forall v, w :: v in nm ==> pending[v][w] == Expected(nm, adj, p, h, j, v, w)
  }

  /** A task has no unconsumed listing exactly when it has been queued. */
  ghost predicate EmptyIffQueued(nm: map<int, TaskNode>, pending: map<int, multiset<int>>, p: seq<int>)
    requires pending.Keys == nm.Keys
  {
    forall v :: v in nm ==> (pending[v] == multiset{} <==> v in p)
  }

  /** `dist[v]` is at least v's duration. */
  ghost predicate DistAtLeast(nm: map<int, TaskNode>, dist: map<int, real>)
    requires dist.Keys == nm.Keys
  {
    forall v :: v in nm ==> dist[v] >= nm[v].duration
  }

  /** `dist[v]` is at least `dist[w] + duration(v)` for each dependency w whose listing was consumed. */
  ghost predicate DistConsumed(nm: map<int, TaskNode>, dist: map<int, real>, pending: map<int, multiset<int>>)
    requires dist.Keys == nm.Keys && pending.Keys == nm.Keys
  {
    forall v, w :: v in nm && w in nm && pending[v][w] < multiset(nm[v].deps)[w] ==> dist[v] >= dist[w] + nm[v].duration
  }

  /** `prev[v]` is a dequeued dependency of v that attains `dist[v]`. */
  ghost predicate PrevAttains(nm: map<int, TaskNode>, dist: map<int, real>, prev: map<int, int>, done: seq<int>)
    requires dist.Keys == nm.Keys && prev.Keys <= nm.Keys
  {
    forall v :: v in prev ==>
      prev[v] in done && prev[v] in nm && prev[v] in nm[v].deps && dist[v] == dist[prev[v]] + nm[v].duration
  }

  /** Without a `prev` entry `dist[v]` is still the duration. */
  ghost predicate NoPrevDuration(nm: map<int, TaskNode>, dist: map<int, real>, prev: map<int, int>)
    requires dist.Keys == nm.Keys
  {
    forall v :: v in nm && v !in prev ==> dist[v] == nm[v].duration
  }

  ghost predicate Inv(nm: map<int, TaskNode>, adj: map<int, seq<int>>, dist: map<int, real>, prev: map<int, int>,
                      inDegree: map<int, int>, queue: seq<int>, pending: map<int, multiset<int>>,
                      p: seq<int>, h: nat, j: nat) {
    Keys(nm, dist, prev, inDegree, pending) && Cursor(adj, queue, p, h, j)
    && Distinct(p) && InTable(nm, p)
    && DegreeCounts(nm, inDegree, pending) && PendingExpected(nm, adj, pending, p, h, j)
    && EmptyIffQueued(nm, pending, p)
    && DistAtLeast(nm, dist) && DistConsumed(nm, dist, pending) && PrevAttains(nm, dist, prev, p[..h])
    && NoPrevDuration(nm, dist, prev)
  }

  /**
   * The invariant behind `layer` levels of recursion. The verifier unfolds a recursive
   * predicate only a couple of levels on its own, so the loops carry `Sealed(…, 3)`, which it
   * never opens down to `Inv`: the loop's proof obligations then see one closed fact instead
   * of Inv's dozen quantified conjuncts and stay small. `Unseal` and `Seal` convert between
   * it and `Inv` where a step needs the parts.
   * `p` is part of `decreases` so that the measure is never a literal, which would let the
   * verifier unfold a literal layer without limit.
   */
  ghost predicate Sealed(nm: map<int, TaskNode>, adj: map<int, seq<int>>, dist: map<int, real>, prev: map<int, int>,
                         inDegree: map<int, int>, queue: seq<int>, pending: map<int, multiset<int>>,
                         p: seq<int>, h: nat, j: nat, layer: nat)
    decreases layer, p
  {
    if layer == 0 then Inv(nm, adj, dist, prev, inDegree, queue, pending, p, h, j)
    else Sealed(nm, adj, dist, prev, inDegree, queue, pending, p, h, j, layer - 1)
  }

  lemma Unseal(nm: map<int, TaskNode>, adj: map<int, seq<int>>, dist: map<int, real>, prev: map<int, int>,
               inDegree: map<int, int>, queue: seq<int>, pending: map<int, multiset<int>>, p: seq<int>, h: nat, j: nat)
    requires Sealed(nm, adj, dist, prev, inDegree, queue, pending, p, h, j, 3)
    ensures Inv(nm, adj, dist, prev, inDegree, queue, pending, p, h, j) == true
  {
    assert Sealed(nm, adj, dist, prev, inDegree, queue, pending, p, h, j, 2);
    assert Sealed(nm, adj, dist, prev, inDegree, queue, pending, p, h, j, 1);
    assert Sealed(nm, adj, dist, prev, inDegree, queue, pending, p, h, j, 0);
  }

  lemma Seal(nm: map<int, TaskNode>, adj: map<int, seq<int>>, dist: map<int, real>, prev: map<int, int>,
             inDegree: map<int, int>, queue: seq<int>, pending: map<int, multiset<int>>, p: seq<int>, h: nat, j: nat)
    requires Inv(nm, adj, dist, prev, inDegree, queue, pending, p, h, j) == true
    ensures Sealed(nm, adj, dist, prev, inDegree, queue, pending, p, h, j, 3)
  {
    assert Sealed(nm, adj, dist, prev, inDegree, queue, pending, p, h, j, 0);
    assert Sealed(nm, adj, dist, prev, inDegree, queue, pending, p, h, j, 1);
    assert Sealed(nm, adj, dist, prev, inDegree, queue, pending, p, h, j, 2);
  }

  // ------------------------------------------------------------------ one relaxation

  lemma SuffixCount(s: seq<int>, j: nat, v: int)
    requires j <= |s|
    ensures multiset(s[j..])[v] <= multiset(s)[v]
  {
    assert s == s[..j] + s[j..];
  }

  /** What processing `v := adj(u)[j]` can rely on: v is a task that still waits for u. */
  lemma StepFacts(nm: map<int, TaskNode>, adj: map<int, seq<int>>, pending: map<int, multiset<int>>,
                  p: seq<int>, h: nat, j: nat)
    requires AdjCounts(nm, adj) && pending.Keys == nm.Keys
    requires 0 < h <= |p| && j < |AdjGet(adj, p[h - 1])|
    requires PendingExpected(nm, adj, pending, p, h, j) && EmptyIffQueued(nm, pending, p)
    ensures var u, v := p[h - 1], AdjGet(adj, p[h - 1])[j];
      v in nm && u in p[..h] && pending[v][u] >= 1 && v !in p && u != v && multiset(nm[v].deps)[u] >= 1
  {
    var u := p[h - 1];
    var s := AdjGet(adj, u);
    var v := s[j];
    assert s[j..] == [v] + s[j + 1..];
    SuffixCount(s, j, v);
    assert multiset(s)[v] >= 1;
    assert v in nm;
    assert u in p[..h];
    assert pending[v][u] == Expected(nm, adj, p, h, j, v, u);
  }

  /** The queue bookkeeping after v's in-degree reached 0 or not. */
  lemma RelaxCursor(nm: map<int, TaskNode>, adj: map<int, seq<int>>, queue: seq<int>, p: seq<int>, h: nat, j: nat,
                    v: int, queue': seq<int>, p': seq<int>)
    requires Cursor(adj, queue, p, h, j) && h > 0 && j < |AdjGet(adj, p[h - 1])|
    requires Distinct(p) && InTable(nm, p) && v in nm && v !in p
    requires (p' == p + [v] && queue' == queue + [v]) || (p' == p && queue' == queue)
    ensures Cursor(adj, queue', p', h, j + 1) && Distinct(p') && InTable(nm, p')
    ensures |p'| >= |p| && p'[..|p|] == p && p'[..h] == p[..h]
    ensures forall x :: x in p' <==> x in p || (x == v && p' != p)
  {
    if p' != p {
      assert p'[h..] == p[h..] + [v];
      assert p'[h - 1] == p[h - 1];
    }
  }

  lemma RelaxDegree(nm: map<int, TaskNode>, inDegree: map<int, int>, pending: map<int, multiset<int>>, u: int, v: int,
                    inDegree': map<int, int>, pending': map<int, multiset<int>>)
    requires inDegree.Keys == nm.Keys && pending.Keys == nm.Keys && DegreeCounts(nm, inDegree, pending)
    requires v in nm && pending[v][u] >= 1
    requires pending' == pending[v := pending[v] - multiset{u}] && inDegree' == inDegree[v := inDegree[v] - 1]
    ensures inDegree'.Keys == nm.Keys && pending'.Keys == nm.Keys && DegreeCounts(nm, inDegree', pending')
  {
    forall x | x in nm ensures inDegree'[x] == |pending'[x]| {
      if x == v {
        assert pending[v] == pending'[v] + multiset{u};
      } else {
        assert inDegree'[x] == inDegree[x] && pending'[x] == pending[x];
      }
    }
  }

  /** Consuming one listing of u in v's deps lowers v's expected count for u by one and nothing else. */
  lemma ExpectedStep(nm: map<int, TaskNode>, adj: map<int, seq<int>>, p: seq<int>, h: nat, j: nat, p': seq<int>, x: int, w: int)
    requires 0 < h <= |p| && h <= |p'| && j < |AdjGet(adj, p[h - 1])| && p'[..h] == p[..h]
    ensures var u, v := p[h - 1], AdjGet(adj, p[h - 1])[j];
      Expected(nm, adj, p', h, j + 1, x, w) == Expected(nm, adj, p, h, j, x, w) - (if x == v && w == u then 1 else 0)
  {
    var u, v := p[h - 1], AdjGet(adj, p[h - 1])[j];
    var s := AdjGet(adj, u);
    assert s[j..] == [v] + s[j + 1..];
    assert p'[h - 1] == u;
    if w == u {
      assert multiset(s[j..])[x] == (if x == v then 1 else 0) + multiset(s[j + 1..])[x];
    }
  }

  lemma RelaxExpected(nm: map<int, TaskNode>, adj: map<int, seq<int>>, pending: map<int, multiset<int>>,
                      p: seq<int>, h: nat, j: nat, pending': map<int, multiset<int>>, p': seq<int>)
    requires pending.Keys == nm.Keys && 0 < h <= |p| && h <= |p'| && j < |AdjGet(adj, p[h - 1])|
    requires PendingExpected(nm, adj, pending, p, h, j) && p'[..h] == p[..h]
    requires var u, v := p[h - 1], AdjGet(adj, p[h - 1])[j];
      v in nm && pending' == pending[v := pending[v] - multiset{u}]
    ensures pending'.Keys == nm.Keys && PendingExpected(nm, adj, pending', p', h, j + 1)
  {
    var u, v := p[h - 1], AdjGet(adj, p[h - 1])[j];
    forall x, w | x in nm ensures pending'[x][w] == Expected(nm, adj, p', h, j + 1, x, w) {
      ExpectedStep(nm, adj, p, h, j, p', x, w);
      assert pending[x][w] == Expected(nm, adj, p, h, j, x, w);
    }
  }

  /** v becomes empty, and is queued, exactly when its last listing is consumed. */
  lemma RelaxEmpty(nm: map<int, TaskNode>, inDegree: map<int, int>, pending: map<int, multiset<int>>, p: seq<int>,
                   u: int, v: int, inDegree': map<int, int>, pending': map<int, multiset<int>>, p': seq<int>)
    requires inDegree.Keys == nm.Keys && pending.Keys == nm.Keys
    requires DegreeCounts(nm, inDegree, pending) && EmptyIffQueued(nm, pending, p)
    requires v in nm && v !in p && pending[v][u] >= 1
    requires pending' == pending[v := pending[v] - multiset{u}] && inDegree' == inDegree[v := inDegree[v] - 1]
    requires if inDegree'[v] == 0 then p' == p + [v] else p' == p
    ensures pending'.Keys == nm.Keys && EmptyIffQueued(nm, pending', p')
  {
    assert pending[v] == pending'[v] + multiset{u};
    assert inDegree'[v] == |pending'[v]|;
    forall x | x in nm ensures pending'[x] == multiset{} <==> x in p' {
      if x != v {
        assert pending'[x] == pending[x];
      }
    }
  }

  /** A consumed listing names a dequeued id. */
  ghost predicate ConsumedIn(nm: map<int, TaskNode>, pending: map<int, multiset<int>>, done: seq<int>)
    requires pending.Keys == nm.Keys
  {
    forall x, w :: x in nm && w in nm && pending[x][w] < multiset(nm[x].deps)[w] ==> w in done
  }

  lemma ConsumedDone(nm: map<int, TaskNode>, adj: map<int, seq<int>>, pending: map<int, multiset<int>>,
                     p: seq<int>, h: nat, j: nat)
    requires h <= |p| && pending.Keys == nm.Keys && PendingExpected(nm, adj, pending, p, h, j)
    ensures ConsumedIn(nm, pending, p[..h])
  {
    forall x, w | x in nm && w in nm && pending[x][w] < multiset(nm[x].deps)[w] ensures w in p[..h] {
      assert pending[x][w] == Expected(nm, adj, p, h, j, x, w);
    }
  }

  lemma RelaxAtLeast(nm: map<int, TaskNode>, dist: map<int, real>, u: int, v: int, dist': map<int, real>)
    requires dist.Keys == nm.Keys && DistAtLeast(nm, dist) && v in nm && u in nm
    requires dist' == dist || (dist' == dist[v := dist[u] + nm[v].duration] && dist[u] + nm[v].duration > dist[v])
    ensures dist'.Keys == nm.Keys && DistAtLeast(nm, dist')
  {
  }

  /** One pair (x, w) of RelaxConsumed, with the old facts about it instantiated. */
  lemma ConsumedPair(nm: map<int, TaskNode>, dist: map<int, real>, pending: map<int, multiset<int>>, done: seq<int>,
                     u: int, v: int, nv: real, pending': map<int, multiset<int>>, x: int, w: int)
    requires dist.Keys == nm.Keys && pending.Keys == nm.Keys && x in nm && w in nm
    requires pending[x][w] < multiset(nm[x].deps)[w] ==> w in done && dist[x] >= dist[w] + nm[x].duration
    requires u in nm && v in nm && u in done && v !in done
    requires pending' == pending[v := pending[v] - multiset{u}]
    requires nv >= dist[v] && nv >= dist[u] + nm[v].duration
    requires pending'[x][w] < multiset(nm[x].deps)[w]
    ensures dist[v := nv][x] >= dist[v := nv][w] + nm[x].duration
  {
    if x != v {
      assert pending'[x] == pending[x];
    } else if w != u {
      assert pending'[v][w] == pending[v][w];
    }
  }

  lemma RelaxConsumed(nm: map<int, TaskNode>, dist: map<int, real>, pending: map<int, multiset<int>>, done: seq<int>,
                      u: int, v: int, nv: real, pending': map<int, multiset<int>>)
    requires dist.Keys == nm.Keys && pending.Keys == nm.Keys
    requires DistConsumed(nm, dist, pending) && ConsumedIn(nm, pending, done)
    requires v in nm && u in nm && u in done && v !in done
    requires pending' == pending[v := pending[v] - multiset{u}]
    requires nv >= dist[v] && nv >= dist[u] + nm[v].duration
    ensures pending'.Keys == nm.Keys && DistConsumed(nm, dist[v := nv], pending')
  {
    forall x, w | x in nm && w in nm && pending'[x][w] < multiset(nm[x].deps)[w]
      ensures dist[v := nv][x] >= dist[v := nv][w] + nm[x].duration
    {
      ConsumedPair(nm, dist, pending, done, u, v, nv, pending', x, w);
    }
  }

  lemma RelaxPrev(nm: map<int, TaskNode>, dist: map<int, real>, prev: map<int, int>, done: seq<int>, u: int, v: int,
                  dist': map<int, real>, prev': map<int, int>)
    requires dist.Keys == nm.Keys && prev.Keys <= nm.Keys && PrevAttains(nm, dist, prev, done)
    requires v in nm && u in nm && u in done && v !in done && u in nm[v].deps
    requires (dist' == dist && prev' == prev)
      || (dist' == dist[v := dist[u] + nm[v].duration] && prev' == prev[v := u])
    ensures dist'.Keys == nm.Keys && prev'.Keys <= nm.Keys && PrevAttains(nm, dist', prev', done)
  {
    forall x | x in prev'
      ensures prev'[x] in done && prev'[x] in nm && prev'[x] in nm[x].deps && dist'[x] == dist'[prev'[x]] + nm[x].duration
    {
      if x != v {
        assert prev'[x] == prev[x] && dist'[x] == dist[x];
        assert prev[x] != v;
      }
    }
  }

  lemma RelaxNoPrev(nm: map<int, TaskNode>, dist: map<int, real>, prev: map<int, int>, u: int, v: int,
                    dist': map<int, real>, prev': map<int, int>)
    requires dist.Keys == nm.Keys && NoPrevDuration(nm, dist, prev) && v in nm && u in nm
    requires (dist' == dist && prev' == prev)
      || (dist' == dist[v := dist[u] + nm[v].duration] && prev' == prev[v := u])
    ensures dist'.Keys == nm.Keys && NoPrevDuration(nm, dist', prev')
  {
  }

  /**
   * One pass of the inner loop from a state satisfying the invariant: `v := adj(u)[j]` for the
   * dequeued `u := p[h - 1]`; v's distance rises to `dist[u] + duration(v)` with `prev[v] := u`
   * when that is larger, v's in-degree drops, and v is queued when it reaches 0.
   */
  ghost predicate Relaxes(nm: map<int, TaskNode>, adj: map<int, seq<int>>,
                 dist: map<int, real>, prev: map<int, int>, inDegree: map<int, int>, queue: seq<int>,
                 pending: map<int, multiset<int>>, p: seq<int>, h: nat, j: nat, u: int, v: int,
                 dist': map<int, real>, prev': map<int, int>, inDegree': map<int, int>, queue': seq<int>,
                 pending': map<int, multiset<int>>, p': seq<int>) {
    AdjCounts(nm, adj)
    && Inv(nm, adj, dist, prev, inDegree, queue, pending, p, h, j)
    && Step(nm, adj, dist, prev, inDegree, queue, pending, p, h, j, u, v, dist', prev', inDegree', queue', pending', p')
  }

  /** The cursor facts of the pass `v := adj(u)[j]` for `u := p[h - 1]`, and its effect. */
  ghost predicate Step(nm: map<int, TaskNode>, adj: map<int, seq<int>>,
                 dist: map<int, real>, prev: map<int, int>, inDegree: map<int, int>, queue: seq<int>,
                 pending: map<int, multiset<int>>, p: seq<int>, h: nat, j: nat, u: int, v: int,
                 dist': map<int, real>, prev': map<int, int>, inDegree': map<int, int>, queue': seq<int>,
                 pending': map<int, multiset<int>>, p': seq<int>) {
    0 < h <= |p| && u == p[h - 1] && j < |AdjGet(adj, u)| && v == AdjGet(adj, u)[j]
    && Relaxed(nm, u, v, dist, prev, inDegree, queue, pending, p, dist', prev', inDegree', queue', pending', p')
  }

  /**
   * Relaxing the listing of v under u: v's distance rises to `dist[u] + duration(v)`, with
   * `prev[v] := u`, when that is larger; v's in-degree drops and v is queued when it
   * reaches 0. `pending` and `p` are bookkeeping: one listing of u fewer is unconsumed, and
   * `p` grows with the queue.
   */
  ghost predicate Relaxed(nm: map<int, TaskNode>, u: int, v: int,
                 dist: map<int, real>, prev: map<int, int>, inDegree: map<int, int>, queue: seq<int>,
                 pending: map<int, multiset<int>>, p: seq<int>,
                 dist': map<int, real>, prev': map<int, int>, inDegree': map<int, int>, queue': seq<int>,
                 pending': map<int, multiset<int>>, p': seq<int>) {
    v in nm && u in dist && v in dist && v in inDegree && v in pending
    && pending' == pending[v := pending[v] - multiset{u}] && inDegree' == inDegree[v := inDegree[v] - 1]
    && (if dist[u] + nm[v].duration > dist[v] then dist' == dist[v := dist[u] + nm[v].duration] && prev' == prev[v := u]
        else dist' == dist && prev' == prev)
    && (if inDegree'[v] == 0 then p' == p + [v] && queue' == queue + [v] else p' == p && queue' == queue)
  }

  /** One pass keeps the invariant, one listing further along u's list. */
  lemma RelaxInv(nm: map<int, TaskNode>, adj: map<int, seq<int>>,
                 dist: map<int, real>, prev: map<int, int>, inDegree: map<int, int>, queue: seq<int>,
                 pending: map<int, multiset<int>>, p: seq<int>, h: nat, j: nat, u: int, v: int,
                 dist': map<int, real>, prev': map<int, int>, inDegree': map<int, int>, queue': seq<int>,
                 pending': map<int, multiset<int>>, p': seq<int>)
    requires Relaxes(nm, adj, dist, prev, inDegree, queue, pending, p, h, j, u, v, dist', prev', inDegree', queue', pending', p') == true
    ensures Inv(nm, adj, dist', prev', inDegree', queue', pending', p', h, j + 1) == true
    ensures |p'| >= |p| && p'[..|p|] == p
  {
    RelaxQueuePart(nm, adj, dist, prev, inDegree, queue, pending, p, h, j, u, v, dist', prev', inDegree', queue', pending', p');
    RelaxCountPart(nm, adj, dist, prev, inDegree, queue, pending, p, h, j, u, v, dist', prev', inDegree', queue', pending', p');
    RelaxOrderPart(nm, adj, dist, prev, inDegree, queue, pending, p, h, j, u, v, dist', prev', inDegree', queue', pending', p');
    RelaxDistPart(nm, adj, dist, prev, inDegree, queue, pending, p, h, j, u, v, dist', prev', inDegree', queue', pending', p');
  }

  /** RelaxInv on the sealed invariant. */
  lemma RelaxSealed(nm: map<int, TaskNode>, adj: map<int, seq<int>>,
                    dist: map<int, real>, prev: map<int, int>, inDegree: map<int, int>, queue: seq<int>,
                    pending: map<int, multiset<int>>, p: seq<int>, h: nat, j: nat, u: int, v: int,
                    dist': map<int, real>, prev': map<int, int>, inDegree': map<int, int>, queue': seq<int>,
                    pending': map<int, multiset<int>>, p': seq<int>)
    requires AdjCounts(nm, adj) && Sealed(nm, adj, dist, prev, inDegree, queue, pending, p, h, j, 3)
    requires Step(nm, adj, dist, prev, inDegree, queue, pending, p, h, j, u, v, dist', prev', inDegree', queue', pending', p') == true
    ensures Sealed(nm, adj, dist', prev', inDegree', queue', pending', p', h, j + 1, 3)
    ensures |p'| >= |p| && p'[..|p|] == p
  {
    Unseal(nm, adj, dist, prev, inDegree, queue, pending, p, h, j);
    RelaxInv(nm, adj, dist, prev, inDegree, queue, pending, p, h, j, u, v, dist', prev', inDegree', queue', pending', p');
    Seal(nm, adj, dist', prev', inDegree', queue', pending', p', h, j + 1);
  }

  /** Before the pass: v is a task and every map has an entry for it and for u. */
  lemma StepReady(nm: map<int, TaskNode>, adj: map<int, seq<int>>, dist: map<int, real>, prev: map<int, int>,
                  inDegree: map<int, int>, queue: seq<int>, pending: map<int, multiset<int>>, p: seq<int>, h: nat, j: nat)
    requires AdjCounts(nm, adj) && Sealed(nm, adj, dist, prev, inDegree, queue, pending, p, h, j, 3)
    requires 0 < h && h <= |p| && j < |AdjGet(adj, p[h - 1])|
    ensures var u, v := p[h - 1], AdjGet(adj, p[h - 1])[j];
      v in nm && u in dist && v in dist && v in inDegree && v in pending
  {
    Unseal(nm, adj, dist, prev, inDegree, queue, pending, p, h, j);
    StepFacts(nm, adj, pending, p, h, j);
  }

  lemma RelaxQueuePart(nm: map<int, TaskNode>, adj: map<int, seq<int>>,
                 dist: map<int, real>, prev: map<int, int>, inDegree: map<int, int>, queue: seq<int>,
                 pending: map<int, multiset<int>>, p: seq<int>, h: nat, j: nat, u: int, v: int,
                 dist': map<int, real>, prev': map<int, int>, inDegree': map<int, int>, queue': seq<int>,
                 pending': map<int, multiset<int>>, p': seq<int>)
    requires Relaxes(nm, adj, dist, prev, inDegree, queue, pending, p, h, j, u, v, dist', prev', inDegree', queue', pending', p')
    ensures Cursor(adj, queue', p', h, j + 1) && Distinct(p') && InTable(nm, p')
    ensures |p'| >= |p| && p'[..|p|] == p && p'[..h] == p[..h]
  {
    StepFacts(nm, adj, pending, p, h, j);
    RelaxCursor(nm, adj, queue, p, h, j, AdjGet(adj, p[h - 1])[j], queue', p');
  }

  lemma RelaxCountPart(nm: map<int, TaskNode>, adj: map<int, seq<int>>,
                 dist: map<int, real>, prev: map<int, int>, inDegree: map<int, int>, queue: seq<int>,
                 pending: map<int, multiset<int>>, p: seq<int>, h: nat, j: nat, u: int, v: int,
                 dist': map<int, real>, prev': map<int, int>, inDegree': map<int, int>, queue': seq<int>,
                 pending': map<int, multiset<int>>, p': seq<int>)
    requires Relaxes(nm, adj, dist, prev, inDegree, queue, pending, p, h, j, u, v, dist', prev', inDegree', queue', pending', p')
    ensures inDegree'.Keys == nm.Keys && pending'.Keys == nm.Keys
    ensures DegreeCounts(nm, inDegree', pending') && PendingExpected(nm, adj, pending', p', h, j + 1)
  {
    StepFacts(nm, adj, pending, p, h, j);
    RelaxCursor(nm, adj, queue, p, h, j, v, queue', p');
    RelaxDegree(nm, inDegree, pending, u, v, inDegree', pending');
    RelaxExpected(nm, adj, pending, p, h, j, pending', p');
  }

  lemma RelaxOrderPart(nm: map<int, TaskNode>, adj: map<int, seq<int>>,
                 dist: map<int, real>, prev: map<int, int>, inDegree: map<int, int>, queue: seq<int>,
                 pending: map<int, multiset<int>>, p: seq<int>, h: nat, j: nat, u: int, v: int,
                 dist': map<int, real>, prev': map<int, int>, inDegree': map<int, int>, queue': seq<int>,
                 pending': map<int, multiset<int>>, p': seq<int>)
    requires Relaxes(nm, adj, dist, prev, inDegree, queue, pending, p, h, j, u, v, dist', prev', inDegree', queue', pending', p')
    ensures pending'.Keys == nm.Keys && EmptyIffQueued(nm, pending', p')
  {
    StepFacts(nm, adj, pending, p, h, j);
    RelaxEmpty(nm, inDegree, pending, p, u, v, inDegree', pending', p');
  }

  lemma RelaxDistPart(nm: map<int, TaskNode>, adj: map<int, seq<int>>,
                 dist: map<int, real>, prev: map<int, int>, inDegree: map<int, int>, queue: seq<int>,
                 pending: map<int, multiset<int>>, p: seq<int>, h: nat, j: nat, u: int, v: int,
                 dist': map<int, real>, prev': map<int, int>, inDegree': map<int, int>, queue': seq<int>,
                 pending': map<int, multiset<int>>, p': seq<int>)
    requires Relaxes(nm, adj, dist, prev, inDegree, queue, pending, p, h, j, u, v, dist', prev', inDegree', queue', pending', p')
    ensures dist'.Keys == nm.Keys && prev'.Keys <= nm.Keys && pending'.Keys == nm.Keys
    ensures DistAtLeast(nm, dist') && DistConsumed(nm, dist', pending')
    ensures PrevAttains(nm, dist', prev', p'[..h]) && NoPrevDuration(nm, dist', prev')
  {
    StepFacts(nm, adj, pending, p, h, j);
    RelaxQueuePart(nm, adj, dist, prev, inDegree, queue, pending, p, h, j, u, v, dist', prev', inDegree', queue', pending', p');
    RelaxAtLeast(nm, dist, u, v, dist');
    ConsumedDone(nm, adj, pending, p, h, j);
    var nv := if dist[u] + nm[v].duration > dist[v] then dist[u] + nm[v].duration else dist[v];
    assert dist' == dist[v := nv];
    RelaxConsumed(nm, dist, pending, p[..h], u, v, nv, pending');
    RelaxPrev(nm, dist, prev, p[..h], u, v, dist', prev');
    RelaxNoPrev(nm, dist, prev, u, v, dist', prev');
  }

  lemma PrefixTrans(a: seq<int>, b: seq<int>, c: seq<int>)
    requires |b| >= |a| && b[..|a|] == a && |c| >= |b| && c[..|b|] == b
    ensures |c| >= |a| && c[..|a|] == a
  {
    assert c[..|a|] == c[..|b|][..|a|];
  }

  /**
   * The inner loop's invariant, sealed like `Sealed`: the main invariant with the cursor at
   * entry k of u's list, over a dequeue order that extends the one at entry, p0, and whose
   * h-th entry is u.
   */
  ghost predicate Scanning(nm: map<int, TaskNode>, adj: map<int, seq<int>>, u: int,
                           dist: map<int, real>, prev: map<int, int>, inDegree: map<int, int>, queue: seq<int>,
                           pending: map<int, multiset<int>>, p0: seq<int>, p: seq<int>, h: nat, k: nat, layer: nat)
    decreases layer, p
  {
    if layer == 0 then
      AdjCounts(nm, adj) && Sealed(nm, adj, dist, prev, inDegree, queue, pending, p, h, k, 3)
      && 0 < h <= |p0| <= |p| && p[..|p0|] == p0 && p[h - 1] == u && k <= |AdjGet(adj, u)|
    else Scanning(nm, adj, u, dist, prev, inDegree, queue, pending, p0, p, h, k, layer - 1)
  }

  /** The inner loop starts at the head of u's list, with nothing queued yet. */
  lemma ScanStart(nm: map<int, TaskNode>, adj: map<int, seq<int>>, u: int,
                  dist: map<int, real>, prev: map<int, int>, inDegree: map<int, int>, queue: seq<int>,
                  pending: map<int, multiset<int>>, p: seq<int>, h: nat)
    requires AdjCounts(nm, adj) && Sealed(nm, adj, dist, prev, inDegree, queue, pending, p, h, 0, 3)
    requires 0 < h <= |p| && u == p[h - 1]
    ensures Scanning(nm, adj, u, dist, prev, inDegree, queue, pending, p, p, h, 0, 3) == true
  {
    assert p[..|p|] == p;
    assert Scanning(nm, adj, u, dist, prev, inDegree, queue, pending, p, p, h, 0, 0);
    assert Scanning(nm, adj, u, dist, prev, inDegree, queue, pending, p, p, h, 0, 1);
    assert Scanning(nm, adj, u, dist, prev, inDegree, queue, pending, p, p, h, 0, 2);
  }

  /** The inner loop's state, opened for one step. */
  lemma ScanOpen(nm: map<int, TaskNode>, adj: map<int, seq<int>>, u: int,
                 dist: map<int, real>, prev: map<int, int>, inDegree: map<int, int>, queue: seq<int>,
                 pending: map<int, multiset<int>>, p0: seq<int>, p: seq<int>, h: nat, k: nat)
    requires Scanning(nm, adj, u, dist, prev, inDegree, queue, pending, p0, p, h, k, 3)
    ensures AdjCounts(nm, adj) && Sealed(nm, adj, dist, prev, inDegree, queue, pending, p, h, k, 3) == true
    ensures 0 < h <= |p0| <= |p| && p[..|p0|] == p0 && p[h - 1] == u && k <= |AdjGet(adj, u)|
  {
    assert Scanning(nm, adj, u, dist, prev, inDegree, queue, pending, p0, p, h, k, 2);
    assert Scanning(nm, adj, u, dist, prev, inDegree, queue, pending, p0, p, h, k, 1);
    assert Scanning(nm, adj, u, dist, prev, inDegree, queue, pending, p0, p, h, k, 0);
  }

  /** A step that extends the dequeue order by a suffix keeps the inner loop's invariant. */
  lemma ScanClose(nm: map<int, TaskNode>, adj: map<int, seq<int>>, u: int,
                  dist: map<int, real>, prev: map<int, int>, inDegree: map<int, int>, queue: seq<int>,
                  pending: map<int, multiset<int>>, p0: seq<int>, p1: seq<int>, p: seq<int>, h: nat, k: nat)
    requires AdjCounts(nm, adj) && Sealed(nm, adj, dist, prev, inDegree, queue, pending, p, h, k, 3)
    requires 0 < h <= |p0| <= |p1| && p1[..|p0|] == p0 && k <= |AdjGet(adj, u)|
    requires |p| >= |p1| && p[..|p1|] == p1 && p[h - 1] == u
    ensures Scanning(nm, adj, u, dist, prev, inDegree, queue, pending, p0, p, h, k, 3) == true
  {
    PrefixTrans(p0, p1, p);
    assert Scanning(nm, adj, u, dist, prev, inDegree, queue, pending, p0, p, h, k, 0);
    assert Scanning(nm, adj, u, dist, prev, inDegree, queue, pending, p0, p, h, k, 1);
    assert Scanning(nm, adj, u, dist, prev, inDegree, queue, pending, p0, p, h, k, 2);
  }

  /** The maps hold entries for the pair the inner loop is at. */
  lemma ScanReady(nm: map<int, TaskNode>, adj: map<int, seq<int>>, u: int,
                  dist: map<int, real>, prev: map<int, int>, inDegree: map<int, int>, queue: seq<int>,
                  pending: map<int, multiset<int>>, p0: seq<int>, p: seq<int>, h: nat, k: nat)
    requires Scanning(nm, adj, u, dist, prev, inDegree, queue, pending, p0, p, h, k, 3)
    requires k < |AdjGet(adj, u)|
    ensures var v := AdjGet(adj, u)[k];
      v in nm && u in dist && v in dist && v in inDegree && v in pending
  {
    ScanOpen(nm, adj, u, dist, prev, inDegree, queue, pending, p0, p, h, k);
    StepReady(nm, adj, dist, prev, inDegree, queue, pending, p, h, k);
  }

  /** One relaxation keeps the inner loop's invariant with the cursor one further along u's list. */
  lemma ScanAfter(nm: map<int, TaskNode>, adj: map<int, seq<int>>, u: int, v: int,
                  dist: map<int, real>, prev: map<int, int>, inDegree: map<int, int>, queue: seq<int>,
                  pending: map<int, multiset<int>>, p0: seq<int>, p: seq<int>, h: nat, k: nat,
                  dist': map<int, real>, prev': map<int, int>, inDegree': map<int, int>, queue': seq<int>,
                  pending': map<int, multiset<int>>, p': seq<int>)
    requires Scanning(nm, adj, u, dist, prev, inDegree, queue, pending, p0, p, h, k, 3)
    requires k < |AdjGet(adj, u)| && v == AdjGet(adj, u)[k]
    requires Relaxed(nm, u, v, dist, prev, inDegree, queue, pending, p, dist', prev', inDegree', queue', pending', p') == true
    ensures Scanning(nm, adj, u, dist', prev', inDegree', queue', pending', p0, p', h, k + 1, 3) == true
  {
    ScanOpen(nm, adj, u, dist, prev, inDegree, queue, pending, p0, p, h, k);
    RelaxSealed(nm, adj, dist, prev, inDegree, queue, pending, p, h, k, u, v, dist', prev', inDegree', queue', pending', p');
    ScanClose(nm, adj, u, dist', prev', inDegree', queue', pending', p0, p, p', h, k + 1);
  }

  /** The inner loop over the tasks listed under the dequeued u. */
  method ScanSuccessors(nodeMap: map<int, TaskNode>, adj: map<int, seq<int>>, u: int,
                        dist0: map<int, real>, prev0: map<int, int>, inDegree0: map<int, int>, queue0: seq<int>,
                        ghost pending0: map<int, multiset<int>>, ghost p0: seq<int>, ghost h: nat)
    returns (dist: map<int, real>, prev: map<int, int>, inDegree: map<int, int>, queue: seq<int>,
             ghost pending: map<int, multiset<int>>, ghost p: seq<int>)
    requires AdjCounts(nodeMap, adj)
    requires Sealed(nodeMap, adj, dist0, prev0, inDegree0, queue0, pending0, p0, h, 0, 3) && 0 < h <= |p0| && u == p0[h - 1]
    ensures Sealed(nodeMap, adj, dist, prev, inDegree, queue, pending, p, h, |AdjGet(adj, u)|, 3) == true
    ensures |p| >= |p0| && p[..|p0|] == p0
  {
    dist, prev, inDegree, queue, pending, p := dist0, prev0, inDegree0, queue0, pending0, p0;
    var succ := AdjGet(adj, u);
    var k := 0;
    ScanStart(nodeMap, adj, u, dist, prev, inDegree, queue, pending, p, h);
    while k < |succ|
      invariant k <= |succ|
      invariant Scanning(nodeMap, adj, u, dist, prev, inDegree, queue, pending, p0, p, h, k, 3)
    {
      var v := succ[k];
      ScanReady(nodeMap, adj, u, dist, prev, inDegree, queue, pending, p0, p, h, k);
      ghost var dist1, prev1, inDegree1, queue1, pending1, p1 := dist, prev, inDegree, queue, pending, p;
      var newDist := dist[u] + nodeMap[v].duration;
      if newDist > dist[v] {
        dist := dist[v := newDist];
        prev := prev[v := u];
      }
      inDegree := inDegree[v := inDegree[v] - 1];
      pending := pending[v := pending[v] - multiset{u}];
      if inDegree[v] == 0 {
        queue := queue + [v];
        p := p + [v];
      }
      ScanAfter(nodeMap, adj, u, v, dist1, prev1, inDegree1, queue1, pending1, p0, p1, h, k, dist, prev, inDegree, queue, pending, p);
      k := k + 1;
    }
    ScanOpen(nodeMap, adj, u, dist, prev, inDegree, queue, pending, p0, p, h, k);
  }

  /** Dequeuing the head moves the cursor to the start of its list. */
  lemma ShiftExpected(nm: map<int, TaskNode>, adj: map<int, seq<int>>, p: seq<int>, h: nat, j: nat, v: int, w: int)
    requires AdjCounts(nm, adj) && Distinct(p) && h < |p|
    requires h == 0 || (h <= |p| && j == |AdjGet(adj, p[h - 1])|)
    ensures Expected(nm, adj, p, h + 1, 0, v, w) == Expected(nm, adj, p, h, j, v, w)
  {
    assert p[..h + 1] == p[..h] + [p[h]];
    if w == p[h] {
      DistinctAt(p, h);
      assert AdjGet(adj, w)[0..] == AdjGet(adj, w);
    } else if h > 0 && w == p[h - 1] {
      assert AdjGet(adj, w)[j..] == [];
    }
  }

  lemma Shift(nm: map<int, TaskNode>, adj: map<int, seq<int>>, dist: map<int, real>, prev: map<int, int>,
              inDegree: map<int, int>, queue: seq<int>, pending: map<int, multiset<int>>, p: seq<int>, h: nat, j: nat)
    requires AdjCounts(nm, adj) && Inv(nm, adj, dist, prev, inDegree, queue, pending, p, h, j) == true
    requires h == 0 || j == |AdjGet(adj, p[h - 1])|
    requires queue != []
    ensures queue[0] == p[h] && Inv(nm, adj, dist, prev, inDegree, queue[1..], pending, p, h + 1, 0) == true
  {
    ShiftPending(nm, adj, pending, p, h, j);
    ShiftPrev(nm, dist, prev, p, h);
    assert Inv(nm, adj, dist, prev, inDegree, queue[1..], pending, p, h + 1, 0);
  }

  /** The expected listings do not change when the cursor moves to the next dequeued task. */
  lemma ShiftPending(nm: map<int, TaskNode>, adj: map<int, seq<int>>, pending: map<int, multiset<int>>, p: seq<int>, h: nat, j: nat)
    requires AdjCounts(nm, adj) && Distinct(p) && h < |p| && pending.Keys == nm.Keys
    requires h == 0 || j == |AdjGet(adj, p[h - 1])|
    requires PendingExpected(nm, adj, pending, p, h, j)
    ensures PendingExpected(nm, adj, pending, p, h + 1, 0)
  {
    forall v, w | v in nm ensures pending[v][w] == Expected(nm, adj, p, h + 1, 0, v, w) {
      ShiftExpected(nm, adj, p, h, j, v, w);
      assert pending[v][w] == Expected(nm, adj, p, h, j, v, w);
    }
  }

  /** A `prev` target dequeued before p[h] is dequeued once p[h] is. */
  lemma ShiftPrev(nm: map<int, TaskNode>, dist: map<int, real>, prev: map<int, int>, p: seq<int>, h: nat)
    requires dist.Keys == nm.Keys && prev.Keys <= nm.Keys && h < |p|
    requires PrevAttains(nm, dist, prev, p[..h])
    ensures PrevAttains(nm, dist, prev, p[..h + 1])
  {
    assert p[..h + 1] == p[..h] + [p[h]];
    forall v | v in prev ensures prev[v] in p[..h + 1] {
      assert prev[v] in p[..h];
    }
  }

  /** Every dependency of a dequeued task was dequeued, and the task's distance accounts for it. */
  ghost predicate Bellman(nm: map<int, TaskNode>, dist: map<int, real>, order: seq<int>)
    requires dist.Keys == nm.Keys
  {
    forall v, w :: v in nm && v in order && w in nm[v].deps ==> w in nm && dist[v] >= dist[w] + nm[v].duration
  }

  /**
   * Every task, dequeued or not, has a distance at least each dequeued dependency's distance
   * plus its own duration: dequeuing a task relaxes every task that lists it.
   */
  ghost predicate Reached(nm: map<int, TaskNode>, dist: map<int, real>, order: seq<int>)
    requires dist.Keys == nm.Keys
  {
    forall v, w :: v in nm && w in order && w in nm[v].deps ==> w in nm && dist[v] >= dist[w] + nm[v].duration
  }

  /** Every distance is the task's duration, or a dequeued dependency's distance plus the duration. */
  ghost predicate Attained(nm: map<int, TaskNode>, dist: map<int, real>, order: seq<int>)
    requires dist.Keys == nm.Keys
  {
    forall v :: v in nm ==>
      dist[v] == nm[v].duration || exists w :: w in order && w in nm[v].deps && w in nm && dist[v] == dist[w] + nm[v].duration
  }

  /** A task that was never dequeued has a dependency that was never dequeued either. */
  ghost predicate Stuck(nm: map<int, TaskNode>, order: seq<int>) {
    forall v :: v in nm && v !in order ==> exists w :: w in nm[v].deps && w !in order
  }

  /** A queued task has no unconsumed listing, so each of its dependencies has been dequeued. */
  lemma QueuedDone(nm: map<int, TaskNode>, adj: map<int, seq<int>>, pending: map<int, multiset<int>>,
                   p: seq<int>, h: nat, j: nat)
    requires h <= |p| && pending.Keys == nm.Keys
    requires PendingExpected(nm, adj, pending, p, h, j) && EmptyIffQueued(nm, pending, p)
    ensures forall v, w :: v in nm && v in p && w in nm[v].deps ==> w in p[..h]
  {
    forall v, w | v in nm && v in p && w in nm[v].deps ensures w in p[..h] {
      assert pending[v] == multiset{};
      assert pending[v][w] == Expected(nm, adj, p, h, j, v, w);
    }
  }

  /**
   * The queue grows only with tasks whose dependencies were dequeued, each at a position
   * past the dequeued ones, so the order stays topological.
   */
  lemma TopoGrow(nm: map<int, TaskNode>, p0: seq<int>, p: seq<int>, h: nat)
    requires Topological(nm, p0) && h <= |p0| <= |p| && p[..|p0|] == p0
    requires forall v, w :: v in nm && v in p && w in nm[v].deps ==> w in p[..h]
    ensures Topological(nm, p)
  {
    forall k, w | 0 <= k < |p| && p[k] in nm && w in nm[p[k]].deps ensures w in p[..k] {
      if k < |p0| {
        assert p[k] == p0[k] && p[..k] == p0[..k];
      } else {
        var v := p[k];
        assert v in nm && v in p && w in nm[v].deps;
        assert w in p[..h];
        assert p[..h] == p[..k][..h];
      }
    }
  }

  /** Once every queued task is dequeued, each has consumed all its listings. */
  lemma ExitBellman(nm: map<int, TaskNode>, dist: map<int, real>, pending: map<int, multiset<int>>, p: seq<int>)
    requires dist.Keys == nm.Keys && pending.Keys == nm.Keys && InTable(nm, p)
    requires EmptyIffQueued(nm, pending, p) && DistConsumed(nm, dist, pending)
    requires forall v, w :: v in nm && v in p && w in nm[v].deps ==> w in p
    ensures Bellman(nm, dist, p)
  {
    forall v, w | v in nm && v in p && w in nm[v].deps ensures w in nm && dist[v] >= dist[w] + nm[v].duration {
      assert w in p;
      var k :| 0 <= k < |p| && p[k] == w;
      BellmanPair(nm, dist, pending, v, w);
    }
  }

  /** One pair of ExitBellman: a task with no unconsumed listing has consumed w's. */
  lemma BellmanPair(nm: map<int, TaskNode>, dist: map<int, real>, pending: map<int, multiset<int>>, v: int, w: int)
    requires dist.Keys == nm.Keys && pending.Keys == nm.Keys && v in nm && w in nm && w in nm[v].deps
    requires pending[v] == multiset{}
    requires pending[v][w] < multiset(nm[v].deps)[w] ==> dist[v] >= dist[w] + nm[v].duration
    ensures dist[v] >= dist[w] + nm[v].duration
  {
  }

  /**
   * Once the queue is empty every dequeued task's list has been scanned, so each task, dequeued
   * or not, was relaxed from each dequeued dependency.
   */
  lemma ExitReached(nm: map<int, TaskNode>, adj: map<int, seq<int>>, dist: map<int, real>,
                    pending: map<int, multiset<int>>, p: seq<int>, j: nat)
    requires dist.Keys == nm.Keys && pending.Keys == nm.Keys && InTable(nm, p)
    requires PendingExpected(nm, adj, pending, p, |p|, j) && DistConsumed(nm, dist, pending)
    requires |p| == 0 || j == |AdjGet(adj, p[|p| - 1])|
    ensures Reached(nm, dist, p)
  {
    assert p[..|p|] == p;
    forall v, w | v in nm && w in p && w in nm[v].deps ensures w in nm && dist[v] >= dist[w] + nm[v].duration {
      assert pending[v][w] == Expected(nm, adj, p, |p|, j, v, w);
      if w == p[|p| - 1] {
        assert AdjGet(adj, w)[j..] == [];
      }
    }
  }

  /** An unqueued task still waits for a listing, and the only listings left belong to unqueued tasks. */
  lemma ExitStuck(nm: map<int, TaskNode>, adj: map<int, seq<int>>, pending: map<int, multiset<int>>, p: seq<int>, j: nat)
    requires pending.Keys == nm.Keys
    requires PendingExpected(nm, adj, pending, p, |p|, j) && EmptyIffQueued(nm, pending, p)
    requires |p| == 0 || j == |AdjGet(adj, p[|p| - 1])|
    ensures Stuck(nm, p)
  {
    assert p[..|p|] == p;
    forall v | v in nm && v !in p ensures exists w :: w in nm[v].deps && w !in p {
      if forall w :: w in nm[v].deps ==> w in p {
        forall w ensures pending[v][w] == multiset{}[w] {
          assert pending[v][w] == Expected(nm, adj, p, |p|, j, v, w);
          if |p| > 0 && w == p[|p| - 1] {
            assert AdjGet(adj, w)[j..] == [];
          }
        }
        assert false;
      }
    }
  }

  /** What the empty queue leaves behind. */
  lemma Exit(nm: map<int, TaskNode>, adj: map<int, seq<int>>, dist: map<int, real>, prev: map<int, int>,
             inDegree: map<int, int>, queue: seq<int>, pending: map<int, multiset<int>>, p: seq<int>, h: nat, j: nat)
    requires Sealed(nm, adj, dist, prev, inDegree, queue, pending, p, h, j, 3)
    requires h == 0 || (h <= |p| && j == |AdjGet(adj, p[h - 1])|)
    requires queue == []
    ensures h == |p| && dist.Keys == nm.Keys && prev.Keys <= nm.Keys
    ensures PrevAttains(nm, dist, prev, p) && NoPrevDuration(nm, dist, prev) && DistAtLeast(nm, dist)
    ensures Bellman(nm, dist, p) && Reached(nm, dist, p) && Stuck(nm, p) && Distinct(p) && InTable(nm, p)
  {
    Unseal(nm, adj, dist, prev, inDegree, queue, pending, p, h, j);
    assert p[..h] == p;
    QueuedDone(nm, adj, pending, p, h, j);
    ExitBellman(nm, dist, pending, p);
    ExitReached(nm, adj, dist, pending, p, j);
    ExitStuck(nm, adj, pending, p, j);
  }

  // ------------------------------------------------------------------ the main loop

  lemma SubsetCard(a: set<int>, b: set<int>)
    requires a <= b
    ensures |a| <= |b|
  {
    assert b == a + (b - a);
  }

  lemma {:induction false} DistinctCard(p: seq<int>)
    requires Distinct(p)
    ensures |set x | x in p| == |p|
    decreases |p|
  {
    if p != [] {
      var init := p[..|p| - 1];
      var x := p[|p| - 1];
      assert p == init + [x];
      assert multiset(p) == multiset(init) + multiset{x};
      assert Distinct(init) by {
        forall y ensures multiset(init)[y] <= 1 {
          assert multiset(init)[y] <= multiset(p)[y];
        }
      }
      assert x !in init by {
        DistinctAt(p, |p| - 1);
      }
      DistinctCard(init);
      assert (set y | y in p) == (set y | y in init) + {x};
    }
  }

  /** A distinct sequence of task ids is no longer than the table. */
  lemma DistinctBound(nm: map<int, TaskNode>, p: seq<int>)
    requires Distinct(p) && InTable(nm, p)
    ensures |p| <= |nm|
  {
    DistinctCard(p);
    SubsetCard((set x | x in p), nm.Keys);
  }

  /** The map of unconsumed listings before the loop: every listing of every task. */
  ghost function AllListings(nm: map<int, TaskNode>): (m: map<int, multiset<int>>)
    ensures m.Keys == nm.Keys && forall v :: v in nm ==> m[v] == multiset(nm[v].deps)
  {
    map v | v in nm :: multiset(nm[v].deps)
  }

  /** The state after the two set-up loops satisfies the invariant. */
  lemma Start(tasks: seq<TaskNode>)
    requires UniqueIds(tasks)
    ensures var nm := NodeMap(tasks);
      AdjCounts(nm, AdjMap(tasks)) && Topological(nm, Roots(tasks)) && |Roots(tasks)| <= |nm|
      && Sealed(nm, AdjMap(tasks), DurMap(tasks), map[], DegreeMap(tasks), Roots(tasks), AllListings(nm), Roots(tasks), 0, 0, 3)
  {
    var nm, adj, dist, inDegree, p := NodeMap(tasks), AdjMap(tasks), DurMap(tasks), DegreeMap(tasks), Roots(tasks);
    var pending := AllListings(nm);
    forall d, v ensures multiset(AdjGet(adj, d))[v] == if v in nm then multiset(nm[v].deps)[d] else 0 {
      AdjCount(tasks, d, v);
    }
    forall v ensures v in dist <==> v in nm {
      DurMapIs(tasks, v);
    }
    forall v ensures v in inDegree <==> v in nm {
      DegreeMapIs(tasks, v);
    }
    forall v | v in nm ensures inDegree[v] == |pending[v]| && dist[v] == nm[v].duration {
      DegreeMapIs(tasks, v);
      DurMapIs(tasks, v);
    }
    forall v | v in nm ensures pending[v] == multiset{} <==> v in p {
      RootsMembers(tasks, v);
    }
    forall k | 0 <= k < |p| ensures p[k] in nm && nm[p[k]].deps == [] {
      RootsMembers(tasks, p[k]);
    }
    RootsDistinct(tasks);
    DistinctBound(nm, p);
    assert p[0..] == p;
    assert Inv(nm, adj, dist, map[], inDegree, p, pending, p, 0, 0);
    Seal(nm, adj, dist, map[], inDegree, p, pending, p, 0, 0);
  }

  /** Dequeuing the head of the queue, on the sealed invariant. */
  lemma ShiftSealed(nm: map<int, TaskNode>, adj: map<int, seq<int>>, dist: map<int, real>, prev: map<int, int>,
                    inDegree: map<int, int>, queue: seq<int>, pending: map<int, multiset<int>>, p: seq<int>, h: nat, j: nat)
    requires AdjCounts(nm, adj) && Sealed(nm, adj, dist, prev, inDegree, queue, pending, p, h, j, 3)
    requires h == 0 || (h <= |p| && j == |AdjGet(adj, p[h - 1])|)
    requires queue != []
    ensures h < |p| <= |nm| && queue[0] == p[h]
    ensures Sealed(nm, adj, dist, prev, inDegree, queue[1..], pending, p, h + 1, 0, 3)
  {
    Unseal(nm, adj, dist, prev, inDegree, queue, pending, p, h, j);
    DistinctBound(nm, p);
    Shift(nm, adj, dist, prev, inDegree, queue, pending, p, h, j);
    Seal(nm, adj, dist, prev, inDegree, queue[1..], pending, p, h + 1, 0);
  }

  /** The tasks queued while scanning u's list keep the order topological. */
  lemma TopoStep(nm: map<int, TaskNode>, adj: map<int, seq<int>>, dist: map<int, real>, prev: map<int, int>,
                 inDegree: map<int, int>, queue: seq<int>, pending: map<int, multiset<int>>,
                 p0: seq<int>, p: seq<int>, h: nat, j: nat)
    requires Sealed(nm, adj, dist, prev, inDegree, queue, pending, p, h, j, 3)
    requires Topological(nm, p0) && h <= |p0| <= |p| && p[..|p0|] == p0
    ensures Topological(nm, p) && |p| <= |nm|
  {
    Unseal(nm, adj, dist, prev, inDegree, queue, pending, p, h, j);
    DistinctBound(nm, p);
    QueuedDone(nm, adj, pending, p, h, j);
    TopoGrow(nm, p0, p, h);
  }

  // ------------------------------------------------------------------ the maximum

  /**
   * The node the trace starts from: the first task, in task order, whose distance is the
   * largest and positive, because the comparison with the running maximum (initially 0)
   * is strict; the first task when no distance is positive.
   */
  ghost predicate FirstMax(tasks: seq<TaskNode>, dist: map<int, real>, m: int)
    requires forall i :: 0 <= i < |tasks| ==> tasks[i].id in dist
  {
    if forall i :: 0 <= i < |tasks| ==> dist[tasks[i].id] <= 0.0 then tasks != [] && m == tasks[0].id
    else exists i :: FirstMaxAt(tasks, dist, m, i)
  }

  /** m is the id of task i, whose distance is positive, the largest, and larger than every one before it. */
  ghost predicate FirstMaxAt(tasks: seq<TaskNode>, dist: map<int, real>, m: int, i: int)
    requires forall i :: 0 <= i < |tasks| ==> tasks[i].id in dist
  {
    0 <= i < |tasks| && m == tasks[i].id && dist[m] > 0.0
    && (forall k :: 0 <= k < |tasks| ==> dist[tasks[k].id] <= dist[m])
    && (forall k :: 0 <= k < i ==> dist[tasks[k].id] < dist[m])
  }

  /** The scan over `dist`, whose entries were inserted in task order. */
  method MaxNode(tasks: seq<TaskNode>, dist: map<int, real>) returns (maxNode: int)
    requires tasks != [] && forall i :: 0 <= i < |tasks| ==> tasks[i].id in dist
    ensures FirstMax(tasks, dist, maxNode)
  {
    maxNode := tasks[0].id;
    var maxDist := 0.0;
    ghost var at := 0;
    var i := 0;
    while i < |tasks|
      invariant 0 <= i <= |tasks| && 0 <= at < |tasks| && maxNode == tasks[at].id
      invariant forall k :: 0 <= k < i ==> dist[tasks[k].id] <= maxDist
      invariant maxDist == 0.0 ==> at == 0
      invariant maxDist > 0.0 ==> at < i && dist[maxNode] == maxDist && (forall k :: 0 <= k < at ==> dist[tasks[k].id] < maxDist)
      invariant maxDist >= 0.0
    {
      var d := dist[tasks[i].id];
      if d > maxDist {
        maxDist, maxNode, at := d, tasks[i].id, i;
      }
      i := i + 1;
    }
    if maxDist > 0.0 {
      assert FirstMaxAt(tasks, dist, maxNode, at);
    }
  }

  /** Two nodes satisfying FirstMax are the same for tasks with distinct ids. */
  lemma FirstMaxUnique(tasks: seq<TaskNode>, dist: map<int, real>, m: int, m': int)
    requires UniqueIds(tasks) && forall i :: 0 <= i < |tasks| ==> tasks[i].id in dist
    requires FirstMax(tasks, dist, m) && FirstMax(tasks, dist, m')
    ensures m == m'
  {
    if !forall i :: 0 <= i < |tasks| ==> dist[tasks[i].id] <= 0.0 {
      var i :| FirstMaxAt(tasks, dist, m, i);
      var i' :| FirstMaxAt(tasks, dist, m', i');
      assert dist[m] == dist[m'];
      assert i == i';
    }
  }

  // ------------------------------------------------------------------ the trace back

  /** The position of x's first occurrence in `order`, or `|order|` when it does not occur. */
  ghost function Rank(order: seq<int>, x: int): (r: nat)
    ensures r <= |order|
  {
    if order == [] then 0 else if order[0] == x then 0 else 1 + Rank(order[1..], x)
  }

  lemma {:induction false} RankIn(order: seq<int>, x: int)
    ensures x in order ==> Rank(order, x) < |order| && order[Rank(order, x)] == x
    ensures x !in order ==> Rank(order, x) == |order|
    decreases |order|
  {
    if order != [] && order[0] != x {
      RankIn(order[1..], x);
    }
  }

  lemma {:induction false} RankBefore(order: seq<int>, x: int, k: nat)
    requires k <= |order| && x in order[..k]
    ensures Rank(order, x) < k
    decreases k
  {
    if order[0] != x {
      assert order[1..][..k - 1] == order[..k][1..];
      RankBefore(order[1..], x, k - 1);
    }
  }

  /** Each `prev` link goes to a dequeued task earlier in the order than the task it leaves. */
  ghost predicate PrevRanked(prev: map<int, int>, order: seq<int>) {
    forall v :: v in prev ==> prev[v] in order && Rank(order, prev[v]) < Rank(order, v)
  }

  /** Where `prev` targets dequeued dependencies of a topological order, its links descend. */
  lemma PrevDescends(nm: map<int, TaskNode>, dist: map<int, real>, prev: map<int, int>, order: seq<int>)
    requires Drained(nm, dist, prev, order) == true
    ensures PrevRanked(prev, order)
  {
    forall v | v in prev ensures prev[v] in order && Rank(order, prev[v]) < Rank(order, v) {
      RankIn(order, v);
      RankIn(order, prev[v]);
      if v in order {
        var k := Rank(order, v);
        assert order[k] == v;
        RankBefore(order, prev[v], k);
      }
    }
  }

  /** The chain `prev` leads back along from v, ending at v. */
  ghost function Trace(prev: map<int, int>, order: seq<int>, v: int): (c: seq<int>)
    requires PrevRanked(prev, order)
    ensures |c| > 0 && c[|c| - 1] == v
    decreases Rank(order, v)
  {
    if v in prev then Trace(prev, order, prev[v]) + [v] else [v]
  }

  /** The last loop: `path.unshift(current); current = prev.get(current)` until there is no entry. */
  method TraceBack(prev: map<int, int>, start: int, ghost order: seq<int>) returns (path: seq<int>)
    requires PrevRanked(prev, order)
    ensures path == Trace(prev, order, start)
  {
    path := [];
    var current: Option<int> := Some(start);
    while current.Some?
      invariant current.Some? ==> Trace(prev, order, start) == Trace(prev, order, current.value) + path
      invariant current.None? ==> Trace(prev, order, start) == path
      decreases if current.Some? then Rank(order, current.value) + 1 else 0
    {
      var c := current.value;
      if c in prev {
        assert Trace(prev, order, c) + path == Trace(prev, order, prev[c]) + ([c] + path);
      }
      path := [c] + path;
      current := if c in prev then Some(prev[c]) else None;
    }
  }

  // ------------------------------------------------------------------ chains

  /** A dependency chain: task ids, each listed among the deps of the next. */
  ghost predicate Chain(nm: map<int, TaskNode>, c: seq<int>) {
    |c| > 0 && (forall i :: 0 <= i < |c| ==> c[i] in nm) && (forall i :: 0 <= i < |c| - 1 ==> c[i] in nm[c[i + 1]].deps)
  }

  /** The sum of the durations of a chain's tasks. */
  ghost function Weight(nm: map<int, TaskNode>, c: seq<int>): (w: real)
    requires forall i :: 0 <= i < |c| ==> c[i] in nm
  {
    if c == [] then 0.0 else Weight(nm, c[..|c| - 1]) + nm[c[|c| - 1]].duration
  }

  lemma ChainInit(nm: map<int, TaskNode>, c: seq<int>)
    requires Chain(nm, c) && |c| >= 2
    ensures Chain(nm, c[..|c| - 1]) && c[|c| - 2] in nm[c[|c| - 1]].deps
  {
    var init := c[..|c| - 1];
    forall i | 0 <= i < |init| - 1 ensures init[i] in nm[init[i + 1]].deps {
      assert init[i] == c[i] && init[i + 1] == c[i + 1];
    }
  }

  /** The trace from a task is a chain whose weight is the task's distance. */
  lemma {:induction false} TraceWeight(nm: map<int, TaskNode>, dist: map<int, real>, prev: map<int, int>, order: seq<int>, v: int)
    requires dist.Keys == nm.Keys && prev.Keys <= nm.Keys && v in nm
    requires PrevAttains(nm, dist, prev, order) && NoPrevDuration(nm, dist, prev) && PrevRanked(prev, order)
    ensures Chain(nm, Trace(prev, order, v)) && Weight(nm, Trace(prev, order, v)) == dist[v]
    decreases Rank(order, v)
  {
    var c := Trace(prev, order, v);
    if v in prev {
      var u := prev[v];
      var t := Trace(prev, order, u);
      TraceWeight(nm, dist, prev, order, u);
      assert c == t + [v] && c[..|c| - 1] == t;
      forall i | 0 <= i < |c| - 1 ensures c[i] in nm[c[i + 1]].deps {
        if i < |t| - 1 {
          assert c[i] == t[i] && c[i + 1] == t[i + 1];
        }
      }
    }
  }

  /** The trace from a task follows `prev` links, which start where no link is left. */
  lemma {:induction false} TraceLinks(nm: map<int, TaskNode>, dist: map<int, real>, prev: map<int, int>, order: seq<int>, v: int)
    requires dist.Keys == nm.Keys && prev.Keys <= nm.Keys && v in nm
    requires PrevAttains(nm, dist, prev, order) && NoPrevDuration(nm, dist, prev) && PrevRanked(prev, order)
    requires Chain(nm, Trace(prev, order, v))
    ensures PathLinks(nm, dist, order, Trace(prev, order, v))
    decreases Rank(order, v)
  {
    if v in prev {
      var u := prev[v];
      var t := Trace(prev, order, u);
      var c := t + [v];
      assert Chain(nm, t) by {
        assert forall i :: 0 <= i < |t| ==> t[i] == c[i];
      }
      TraceLinks(nm, dist, prev, order, u);
      forall i | 0 <= i < |c| - 1 ensures c[i] in order && dist[c[i + 1]] == dist[c[i]] + nm[c[i + 1]].duration {
        if i < |t| - 1 {
          assert c[i] == t[i] && c[i + 1] == t[i + 1];
        }
      }
    }
  }

  /** Each distance is attained by its `prev` link, or is the duration when there is none. */
  lemma PrevAttained(nm: map<int, TaskNode>, dist: map<int, real>, prev: map<int, int>, order: seq<int>)
    requires dist.Keys == nm.Keys && prev.Keys <= nm.Keys
    requires PrevAttains(nm, dist, prev, order) && NoPrevDuration(nm, dist, prev)
    ensures Attained(nm, dist, order)
  {
    forall v | v in nm && v in prev
      ensures exists w :: w in order && w in nm[v].deps && w in nm && dist[v] == dist[w] + nm[v].duration
    {
      var w := prev[v];
      assert w in order && w in nm[v].deps && w in nm && dist[v] == dist[w] + nm[v].duration;
    }
  }

  /** A task is dequeued only after the dependencies it lists. */
  lemma DepsBefore(nm: map<int, TaskNode>, order: seq<int>, v: int, w: int)
    requires Topological(nm, order) && v in nm && v in order && w in nm[v].deps
    ensures w in order && Rank(order, w) < Rank(order, v)
  {
    RankIn(order, v);
    var k := Rank(order, v);
    assert order[k] == v;
    RankBefore(order, w, k);
  }

  /** No chain ending at a dequeued task is heavier than the task's distance. */
  lemma {:induction false} ChainBound(nm: map<int, TaskNode>, dist: map<int, real>, order: seq<int>, c: seq<int>)
    requires dist.Keys == nm.Keys && Chain(nm, c) && c[|c| - 1] in order
    requires Topological(nm, order) && Bellman(nm, dist, order) && DistAtLeast(nm, dist)
    ensures Weight(nm, c) <= dist[c[|c| - 1]]
    decreases |c|
  {
    if |c| >= 2 {
      ChainInit(nm, c);
      DepsBefore(nm, order, c[|c| - 1], c[|c| - 2]);
      ChainBound(nm, dist, order, c[..|c| - 1]);
    } else {
      var x := c[0];
      assert c[..0] == [] && x in nm;
      assert dist[x] >= nm[x].duration;
    }
  }

  /** `dist[v]` is the weight of the heaviest dependency chain ending at v. */
  ghost predicate Longest(nm: map<int, TaskNode>, dist: map<int, real>, v: int)
    requires dist.Keys == nm.Keys
  {
    v in nm
    && (exists c :: Chain(nm, c) && c[|c| - 1] == v && Weight(nm, c) == dist[v])
    && (forall c :: Chain(nm, c) && c[|c| - 1] == v ==> Weight(nm, c) <= dist[v])
  }

  lemma DequeuedLongest(nm: map<int, TaskNode>, dist: map<int, real>, prev: map<int, int>, order: seq<int>, v: int)
    requires dist.Keys == nm.Keys && prev.Keys <= nm.Keys && v in order && InTable(nm, order)
    requires PrevAttains(nm, dist, prev, order) && NoPrevDuration(nm, dist, prev) && PrevRanked(prev, order)
    requires Topological(nm, order) && Bellman(nm, dist, order) && DistAtLeast(nm, dist)
    ensures Longest(nm, dist, v)
  {
    TraceWeight(nm, dist, prev, order, v);
    forall c | Chain(nm, c) && c[|c| - 1] == v ensures Weight(nm, c) <= dist[v] {
      ChainBound(nm, dist, order, c);
    }
  }

  // ------------------------------------------------------------------ the operation

  /**
   * What `computeCriticalPath` returns, with the final distances and the dequeue order:
   * [] for no tasks; otherwise a dependency chain ending at the FirstMax node whose
   * weight is that node's distance. The order is topological, every task left out of it
   * has a dependency left out too, and each dequeued task's distance is its longest chain.
   * Every distance, also of a task never dequeued, is its duration or a dequeued dependency's
   * distance plus its duration, and no less than any of those, so it is the largest of them;
   * the path runs along such links from a task that kept its duration.
   */
  ghost predicate Outcome(tasks: seq<TaskNode>, path: seq<int>, dist: map<int, real>, order: seq<int>) {
    if tasks == [] then path == []
    else
      var nm := NodeMap(tasks);
      dist.Keys == nm.Keys && Chain(nm, path) && Weight(nm, path) == dist[path[|path| - 1]]
      && FirstMax(tasks, dist, path[|path| - 1])
      && PathLinks(nm, dist, order, path)
      && Distinct(order) && InTable(nm, order) && Topological(nm, order) && Stuck(nm, order)
      && (forall v :: v in order ==> Longest(nm, dist, v))
      && Reached(nm, dist, order) && Attained(nm, dist, order)
  }

  /**
   * The path as `prev` links build it: its first task kept its duration, and each later task's
   * distance is the one before it, which was dequeued, plus its own duration.
   */
  ghost predicate PathLinks(nm: map<int, TaskNode>, dist: map<int, real>, order: seq<int>, path: seq<int>)
    requires dist.Keys == nm.Keys && |path| > 0 && forall i :: 0 <= i < |path| ==> path[i] in nm
  {
    dist[path[0]] == nm[path[0]].duration
    && forall i :: 0 <= i < |path| - 1 ==> path[i] in order && dist[path[i + 1]] == dist[path[i]] + nm[path[i + 1]].duration
  }

  /**
   * What the loop leaves: a distance for every task, `prev` links that attain them, every
   * dequeued task's distance satisfied by each of its dependencies, every task left out
   * waiting for one left out, and a dequeue order that is topological and repeats nothing.
   */
  ghost predicate Drained(nm: map<int, TaskNode>, dist: map<int, real>, prev: map<int, int>, order: seq<int>) {
    dist.Keys == nm.Keys && prev.Keys <= nm.Keys
    && PrevAttains(nm, dist, prev, order) && NoPrevDuration(nm, dist, prev) && DistAtLeast(nm, dist)
    && Bellman(nm, dist, order) && Reached(nm, dist, order) && Stuck(nm, order)
    && Distinct(order) && InTable(nm, order) && Topological(nm, order)
  }

  /**
   * The Kahn loop, `while (queue.length > 0)`: it ends because every pass dequeues one more
   * task of a queue that never holds a task twice. What is left: the final distances and
   * `prev` links, and the dequeue order, which is topological.
   */
  method Drain(nodeMap: map<int, TaskNode>, adj: map<int, seq<int>>, dist0: map<int, real>, inDegree0: map<int, int>,
               queue0: seq<int>, ghost pending0: map<int, multiset<int>>)
    returns (dist: map<int, real>, prev: map<int, int>, ghost order: seq<int>)
    requires AdjCounts(nodeMap, adj) && Topological(nodeMap, queue0) && |queue0| <= |nodeMap|
    requires Sealed(nodeMap, adj, dist0, map[], inDegree0, queue0, pending0, queue0, 0, 0, 3)
    ensures dist.Keys == nodeMap.Keys && Drained(nodeMap, dist, prev, order) == true
  {
    dist, prev := dist0, map[];
    var inDegree, queue := inDegree0, queue0;
    ghost var pending, p := pending0, queue0;
    ghost var h: nat, j: nat := 0, 0;
    while queue != []
      invariant Sealed(nodeMap, adj, dist, prev, inDegree, queue, pending, p, h, j, 3)
      invariant h == 0 || (h <= |p| && j == |AdjGet(adj, p[h - 1])|)
      invariant Topological(nodeMap, p) && h <= |p| <= |nodeMap|
      decreases |nodeMap| - h
    {
      ShiftSealed(nodeMap, adj, dist, prev, inDegree, queue, pending, p, h, j);
      var u := queue[0];
      queue := queue[1..];
      h := h + 1;
      ghost var p0 := p;
      dist, prev, inDegree, queue, pending, p := ScanSuccessors(nodeMap, adj, u, dist, prev, inDegree, queue, pending, p, h);
      j := |AdjGet(adj, u)|;
      TopoStep(nodeMap, adj, dist, prev, inDegree, queue, pending, p0, p, h, j);
    }
    Exit(nodeMap, adj, dist, prev, inDegree, queue, pending, p, h, j);
    order := p;
  }

  method ComputeCriticalPath(tasks: seq<TaskNode>) returns (path: seq<int>, ghost distances: map<int, real>, ghost order: seq<int>)
    requires UniqueIds(tasks)
    ensures tasks == [] <==> path == []
    ensures tasks != [] ==> Chain(NodeMap(tasks), path)
    ensures Outcome(tasks, path, distances, order)
  {
    if |tasks| == 0 {
      return [], map[], [];
    }
    var nodeMap := NodeMap(tasks);
    var adj, inDegree := BuildIndex(tasks);
    var dist, queue := InitDist(tasks);
    Start(tasks);
    var prev;
    dist, prev, order := Drain(nodeMap, adj, dist, inDegree, queue, AllListings(nodeMap));
    var maxNode := MaxNode(tasks, dist);
    PrevDescends(nodeMap, dist, prev, order);
    path := TraceBack(prev, maxNode, order);
    distances := dist;
    Finish(tasks, nodeMap, dist, prev, order, maxNode, path);
  }

  /** The facts left after the loop give the outcome. */
  lemma Finish(tasks: seq<TaskNode>, nm: map<int, TaskNode>, dist: map<int, real>, prev: map<int, int>,
               order: seq<int>, m: int, path: seq<int>)
    requires tasks != [] && nm == NodeMap(tasks) && Drained(nm, dist, prev, order) == true && PrevRanked(prev, order)
    requires FirstMax(tasks, dist, m) == true && path == Trace(prev, order, m)
    ensures Outcome(tasks, path, dist, order)
  {
    assert tasks[0].id in IdSet(tasks);
    if forall i :: 0 <= i < |tasks| ==> dist[tasks[i].id] <= 0.0 {
      assert m in nm;
    } else {
      var i :| 0 <= i < |tasks| && m == tasks[i].id;
      assert m in IdSet(tasks);
    }
    TraceWeight(nm, dist, prev, order, m);
    TraceLinks(nm, dist, prev, order, m);
    PrevAttained(nm, dist, prev, order);
    forall v | v in order ensures Longest(nm, dist, v) {
      DequeuedLongest(nm, dist, prev, order, v);
    }
  }

  // ------------------------------------------------------------------ cycles and the heaviest chain

  /** Along a chain whose end is dequeued, every task is dequeued, the first one strictly earlier. */
  lemma {:induction false} ChainRanks(nm: map<int, TaskNode>, order: seq<int>, c: seq<int>)
    requires Topological(nm, order) && Chain(nm, c) && c[|c| - 1] in order
    ensures c[0] in order && (|c| >= 2 ==> Rank(order, c[0]) < Rank(order, c[|c| - 1]))
    decreases |c|
  {
    if |c| >= 2 {
      ChainInit(nm, c);
      var last := c[|c| - 1];
      DepsBefore(nm, order, last, c[|c| - 2]);
      ChainRanks(nm, order, c[..|c| - 1]);
    }
  }

  /**
   * A task on a dependency cycle is never dequeued: the cycle is a chain from a task back to
   * itself, and no task of it can come before all the others in a topological order.
   */
  lemma CycleNeverDequeued(nm: map<int, TaskNode>, order: seq<int>, c: seq<int>, k: nat)
    requires Topological(nm, order) && Chain(nm, c) && |c| >= 2 && c[0] == c[|c| - 1] && k < |c|
    ensures c[k] !in order
  {
    if c[k] in order {
      var pre := c[..k + 1];
      assert Chain(nm, pre) by {
        forall i | 0 <= i < |pre| - 1 ensures pre[i] in nm[pre[i + 1]].deps {
          assert pre[i] == c[i] && pre[i + 1] == c[i + 1];
        }
      }
      ChainRanks(nm, order, pre);
      ChainRanks(nm, order, c);
      assert false;
    }
  }

  /**
   * With non-negative durations, no dependency chain ending at a dequeued task is heavier than
   * the returned path: the path's end has the largest distance, and a distance is the weight of
   * the heaviest chain ending there.
   */
  /**
   * The dependencies are acyclic and name known tasks: `rank` strictly increases from each
   * listed dependency to the task that lists it.
   */
  ghost predicate Ranked(nm: map<int, TaskNode>, rank: map<int, nat>) {
    nm.Keys <= rank.Keys && forall v, w :: v in nm && w in nm[v].deps ==> w in nm && rank[w] < rank[v]
  }

  lemma {:induction false} DequeuedByRank(nm: map<int, TaskNode>, order: seq<int>, rank: map<int, nat>, v: int, n: nat)
    requires Stuck(nm, order) && Ranked(nm, rank) && v in nm && rank[v] <= n
    ensures v in order
    decreases n
  {
    if v !in order {
      var w :| w in nm[v].deps && w !in order;
      assert w in nm && rank[w] < rank[v];
      DequeuedByRank(nm, order, rank, w, n - 1);
    }
  }

  /**
   * With acyclic dependencies on known tasks, every task is dequeued, so every task's distance
   * is the weight of its heaviest chain.
   */
  lemma AllDequeued(tasks: seq<TaskNode>, path: seq<int>, dist: map<int, real>, order: seq<int>, rank: map<int, nat>, v: int)
    requires tasks != [] && Outcome(tasks, path, dist, order) && Ranked(NodeMap(tasks), rank) && v in NodeMap(tasks)
    ensures v in order && Longest(NodeMap(tasks), dist, v)
  {
    DequeuedByRank(NodeMap(tasks), order, rank, v, rank[v]);
  }

  /**
   * When every task waits on a cycle, as with two tasks each listing the other, nothing is
   * dequeued: every distance stays the task's duration and the path is the one FirstMax task.
   */
  lemma NothingDequeued(tasks: seq<TaskNode>, path: seq<int>, dist: map<int, real>, order: seq<int>)
    requires tasks != [] && Outcome(tasks, path, dist, order) && order == []
    ensures |path| == 1 && FirstMax(tasks, dist, path[0])
    ensures forall v :: v in NodeMap(tasks) ==> dist[v] == NodeMap(tasks)[v].duration
  {
  }

  /** With non-negative durations a chain has non-negative weight. */
  lemma {:induction false} WeightNonNegative(nm: map<int, TaskNode>, c: seq<int>)
    requires forall i :: 0 <= i < |c| ==> c[i] in nm && nm[c[i]].duration >= 0.0
    ensures Weight(nm, c) >= 0.0
    decreases |c|
  {
    if c != [] {
      var init := c[..|c| - 1];
      assert forall i :: 0 <= i < |init| ==> init[i] == c[i];
      WeightNonNegative(nm, init);
    }
  }

  lemma HeaviestPath(tasks: seq<TaskNode>, path: seq<int>, dist: map<int, real>, order: seq<int>, c: seq<int>)
    requires tasks != [] && UniqueIds(tasks) && Outcome(tasks, path, dist, order)
    requires forall i :: 0 <= i < |tasks| ==> tasks[i].duration >= 0.0
    requires Chain(NodeMap(tasks), c) && c[|c| - 1] in order
    ensures Weight(NodeMap(tasks), c) <= Weight(NodeMap(tasks), path)
  {
    var nm := NodeMap(tasks);
    var v := c[|c| - 1];
    var m := path[|path| - 1];
    assert Longest(nm, dist, v);
    assert v in IdSet(tasks);
    var i :| 0 <= i < |tasks| && tasks[i].id == v;
    forall k | 0 <= k < |path| ensures path[k] in nm && nm[path[k]].duration >= 0.0 {
      var x := path[k];
      assert x in IdSet(tasks);
      var t :| 0 <= t < |tasks| && tasks[t].id == x;
      NodeMapAt(tasks, t);
    }
    WeightNonNegative(nm, path);
    if !forall k :: 0 <= k < |tasks| ==> dist[tasks[k].id] <= 0.0 {
      var j :| FirstMaxAt(tasks, dist, m, j);
      assert dist[tasks[i].id] <= dist[m];
    }
  }
}
