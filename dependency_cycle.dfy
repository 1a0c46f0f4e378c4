/**
 * `hasCycle(taskId, dependsOnId)`: would adding the dependency "taskId depends on
 * dependsOnId" to the stored task dependencies close a cycle? The stored rows are read into
 * an adjacency map (task to the tasks it depends on), the proposed edge is appended to it,
 * and a depth-first search from taskId reports whether it meets a task on its own stack.
 */
module DependencyCycle {
  /** A row of `task_dependencies`: `taskId` depends on `dependsOnTaskId`. */
  datatype Dependency = Dependency(taskId: int, dependsOnTaskId: int)

  function AdjGet(adj: map<int, seq<int>>, x: int): seq<int> {
    if x in adj then adj[x] else []
  }

  /** The tasks x depends on in the stored rows, in row order. */
  function Listed(deps: seq<Dependency>, x: int): (r: seq<int>)
    ensures |r| <= |deps|
  {
    if deps == [] then []
    else Listed(deps[..|deps| - 1], x) + (if deps[|deps| - 1].taskId == x then [deps[|deps| - 1].dependsOnTaskId] else [])
  }

  lemma {:induction false} ListedMembers(deps: seq<Dependency>, x: int, y: int)
    ensures y in Listed(deps, x) <==> Dependency(x, y) in deps
    decreases |deps|
  {
    if deps != [] {
      var init := deps[..|deps| - 1];
      ListedMembers(init, x, y);
      assert deps == init + [deps[|deps| - 1]];
    }
  }

  // ------------------------------------------------------------------ the adjacency map

  /** The first loop: `adj.get(d.taskId).push(d.dependsOnTaskId)` for each row, in order. */
  method StoredAdjacency(deps: seq<Dependency>) returns (adj: map<int, seq<int>>)
    ensures forall x :: AdjGet(adj, x) == Listed(deps, x)
  {
    adj := map[];
    var i := 0;
    while i < |deps|
      invariant i <= |deps|
      invariant forall x :: AdjGet(adj, x) == Listed(deps[..i], x)
    {
      var d := deps[i];
      if d.taskId !in adj {
        adj := adj[d.taskId := []];
      }
      adj := adj[d.taskId := adj[d.taskId] + [d.dependsOnTaskId]];
      assert deps[..i + 1][..i] == deps[..i];
      i := i + 1;
    }
    assert deps[..i] == deps;
  }

  /** The adjacency map with the proposed edge appended to taskId's list. */
  method ProposedAdjacency(deps: seq<Dependency>, taskId: int, dependsOnId: int) returns (adj: map<int, seq<int>>)
    ensures forall x :: AdjGet(adj, x) == Listed(deps, x) + (if x == taskId then [dependsOnId] else [])
    ensures taskId in adj
  {
    adj := StoredAdjacency(deps);
    if taskId !in adj {
      adj := adj[taskId := []];
    }
    adj := adj[taskId := adj[taskId] + [dependsOnId]];
  }

  // ------------------------------------------------------------------ paths and cycles

  ghost predicate Edge(adj: map<int, seq<int>>, x: int, y: int) {
    y in AdjGet(adj, x)
  }

  /** A walk along the adjacency lists. */
  ghost predicate Path(adj: map<int, seq<int>>, q: seq<int>) {
    |q| > 0 && forall k :: 0 <= k < |q| - 1 ==> Edge(adj, q[k], q[k + 1])
  }

  /** A walk from root that ends on a task it already passed: a cycle reachable from root. */
  ghost predicate Lasso(adj: map<int, seq<int>>, root: int, c: seq<int>) {
    Path(adj, c) && c[0] == root && exists i :: 0 <= i < |c| - 1 && c[i] == c[|c| - 1]
  }

  ghost predicate CycleFrom(adj: map<int, seq<int>>, root: int) {
    exists c :: Lasso(adj, root, c)
  }

  /** Every task that appears in the map, as a key or in a list. */
  ghost function Nodes(adj: map<int, seq<int>>): set<int> {
    adj.Keys + set x, y | x in adj && y in adj[x] :: y
  }

  // ------------------------------------------------------------------ the search

  /**
   * The finished tasks (visited and off the stack) are closed under the adjacency lists,
   * and their finishing times strictly decrease along every edge.
   */
  ghost predicate Finished(adj: map<int, seq<int>>, finish: map<int, nat>) {
    forall b, s :: b in finish && s in AdjGet(adj, b) ==> s in finish && finish[s] < finish[b]
  }

  /**
   * The search state: `inStack` holds exactly the tasks of the ghost `stack`, a walk from
   * root; the visited tasks are the stacked and the finished ones; every finishing time is
   * below `time`.
   */
  ghost predicate Searching(adj: map<int, seq<int>>, root: int, visited: set<int>, inStack: set<int>,
                            stack: seq<int>, finish: map<int, nat>, time: nat) {
    visited <= Nodes(adj) && inStack <= visited
    && (forall k :: 0 <= k < |stack| ==> stack[k] in inStack)
    && (forall x :: x in inStack ==> x in stack)
    && (stack != [] ==> stack[0] == root && Path(adj, stack))
    && finish.Keys == visited - inStack
    && Finished(adj, finish)
    && (forall x :: x in finish ==> finish[x] < time)
  }

  lemma DiffShrinks(u: set<int>, a: set<int>, b: set<int>, x: int)
    requires a + {x} <= b && x in u && x !in a
    ensures |u - b| < |u - a|
  {
    assert u - b <= (u - a) - {x};
    assert (u - a) == ((u - a) - {x}) + {x};
    SubsetCard(u - b, (u - a) - {x});
  }

  lemma SubsetCard(a: set<int>, b: set<int>)
    requires a <= b
    ensures |a| <= |b|
  {
    assert b == a + (b - a);
  }

  /** A successor of a listed task is a task of the map. */
  lemma SuccInNodes(adj: map<int, seq<int>>, x: int, y: int)
    requires y in AdjGet(adj, x)
    ensures y in Nodes(adj)
  {
  }

  /** Meeting a task on the stack closes a cycle reachable from root. */
  lemma StackLasso(adj: map<int, seq<int>>, root: int, node: int, visited: set<int>, inStack: set<int>,
                   stack: seq<int>, finish: map<int, nat>, time: nat)
    requires Searching(adj, root, visited, inStack, stack, finish, time) && node in inStack
    requires stack != [] ==> node in AdjGet(adj, stack[|stack| - 1])
    ensures CycleFrom(adj, root)
  {
    assert node in stack;
    var i :| 0 <= i < |stack| && stack[i] == node;
    var c := stack + [node];
    assert c[i] == c[|c| - 1];
    forall k | 0 <= k < |c| - 1 ensures Edge(adj, c[k], c[k + 1]) {
      if k < |stack| - 1 {
        assert c[k] == stack[k] && c[k + 1] == stack[k + 1];
      }
    }
    assert Lasso(adj, root, c);
  }

  /** Entering an unvisited task pushes it on the stack. */
  lemma Enter(adj: map<int, seq<int>>, root: int, node: int, visited: set<int>, inStack: set<int>,
              stack: seq<int>, finish: map<int, nat>, time: nat)
    requires Searching(adj, root, visited, inStack, stack, finish, time) && node in Nodes(adj) && node !in visited
    requires stack == [] ==> node == root
    requires stack != [] ==> node in AdjGet(adj, stack[|stack| - 1])
    ensures Searching(adj, root, visited + {node}, inStack + {node}, stack + [node], finish, time)
  {
    var stack' := stack + [node];
    forall k | 0 <= k < |stack'| - 1 ensures Edge(adj, stack'[k], stack'[k + 1]) {
      if k < |stack| - 1 {
        assert stack'[k] == stack[k] && stack'[k + 1] == stack[k + 1];
      }
    }
  }

  /** Leaving a task whose successors are all finished finishes it at `time`. */
  lemma Leave(adj: map<int, seq<int>>, root: int, node: int, visited: set<int>, inStack: set<int>,
              stack: seq<int>, finish: map<int, nat>, time: nat)
    requires Searching(adj, root, visited, inStack + {node}, stack + [node], finish, time) && node !in inStack && node !in stack
    requires forall s :: s in AdjGet(adj, node) ==> s in finish && finish[s] < time
    ensures Searching(adj, root, visited, inStack, stack, finish[node := time], time + 1)
  {
    var stack' := stack + [node];
    var finish' := finish[node := time];
    assert forall k :: 0 <= k < |stack| ==> stack[k] == stack'[k];
    forall x | x in inStack ensures x in stack {
      assert x in stack';
      var k :| 0 <= k < |stack'| && stack'[k] == x;
    }
    if stack != [] {
      forall k | 0 <= k < |stack| - 1 ensures Edge(adj, stack[k], stack[k + 1]) {
        assert stack[k] == stack'[k] && stack[k + 1] == stack'[k + 1];
      }
    }
    forall b, s | b in finish' && s in AdjGet(adj, b) ensures s in finish' && finish'[s] < finish'[b] {
      if b != node {
        assert b in finish;
      }
    }
    assert finish'.Keys == visited - inStack;
    forall x | x in finish' ensures finish'[x] < time + 1 {
      if x != node {
        assert x in finish;
      }
    }
  }

  /**
   * `dfs(node)`. True: a cycle is reachable from root (the search met a task on its stack).
   * False: node is finished, the stack is as before and the finished tasks only grew.
   */
  method Dfs(adj: map<int, seq<int>>, root: int, node: int, visited0: set<int>, inStack0: set<int>,
             ghost stack: seq<int>, ghost finish0: map<int, nat>, ghost time0: nat)
    returns (found: bool, visited: set<int>, inStack: set<int>, ghost finish: map<int, nat>, ghost time: nat)
    requires Searching(adj, root, visited0, inStack0, stack, finish0, time0) && node in Nodes(adj)
    requires stack == [] ==> node == root
    requires stack != [] ==> node in AdjGet(adj, stack[|stack| - 1])
    ensures found ==> CycleFrom(adj, root)
    ensures !found ==> (Searching(adj, root, visited, inStack, stack, finish, time)
      && inStack == inStack0 && visited0 <= visited && node in finish && time0 <= time
      && forall x :: x in finish0 ==> x in finish && finish[x] == finish0[x])
    decreases |Nodes(adj) - visited0|
  {
    visited, inStack, finish, time := visited0, inStack0, finish0, time0;
    if node in inStack {
      StackLasso(adj, root, node, visited, inStack, stack, finish, time);
      return true, visited, inStack, finish, time;
    }
    if node in visited {
      return false, visited, inStack, finish, time;
    }
    assert node !in stack;
    Enter(adj, root, node, visited, inStack, stack, finish, time);
    visited := visited + {node};
    inStack := inStack + {node};
    var succ := AdjGet(adj, node);
    var i := 0;
    while i < |succ|
      invariant i <= |succ|
      invariant Searching(adj, root, visited, inStack, stack + [node], finish, time)
      invariant inStack == inStack0 + {node} && visited0 + {node} <= visited && time0 <= time
      invariant forall x :: x in finish0 ==> x in finish && finish[x] == finish0[x]
      invariant forall k :: 0 <= k < i ==> succ[k] in finish && finish[succ[k]] < time
    {
      var neighbor := succ[i];
      SuccInNodes(adj, node, neighbor);
      DiffShrinks(Nodes(adj), visited0, visited, node);
      var f;
      ghost var finish1, time1 := finish, time;
      f, visited, inStack, finish, time := Dfs(adj, root, neighbor, visited, inStack, stack + [node], finish, time);
      if f {
        return true, visited, inStack, finish, time;
      }
      forall k | 0 <= k <= i ensures succ[k] in finish && finish[succ[k]] < time {
        if k < i {
          var y := succ[k];
          assert y in finish1 && finish1[y] < time1;
          assert finish[y] == finish1[y] && time1 <= time;
        } else {
          assert succ[k] == neighbor && neighbor in finish;
          assert Searching(adj, root, visited, inStack, stack + [node], finish, time);
          assert finish[neighbor] < time;
        }
      }
      i := i + 1;
    }
    forall s | s in succ ensures s in finish && finish[s] < time {
      var k :| 0 <= k < |succ| && succ[k] == s;
    }
    Leave(adj, root, node, visited, inStack0, stack, finish, time);
    inStack := inStack - {node};
    finish := finish[node := time];
    time := time + 1;
    return false, visited, inStack, finish, time;
  }

  /** A walk from a finished task stays among finished tasks. */
  lemma {:induction false} WalkIn(adj: map<int, seq<int>>, finish: map<int, nat>, q: seq<int>, j: nat)
    requires Finished(adj, finish) && Path(adj, q) && q[0] in finish && j < |q|
    ensures q[j] in finish
    decreases j
  {
    if j > 0 {
      WalkIn(adj, finish, q, j - 1);
      assert Edge(adj, q[j - 1], q[j]);
    }
  }

  /** Along a walk from a finished task, finishing times strictly decrease. */
  lemma {:induction false} WalkFinished(adj: map<int, seq<int>>, finish: map<int, nat>, q: seq<int>, i: nat, j: nat)
    requires Finished(adj, finish) && Path(adj, q) && q[0] in finish && i < j < |q|
    ensures q[i] in finish && q[j] in finish && finish[q[j]] < finish[q[i]]
    decreases j
  {
    WalkIn(adj, finish, q, j - 1);
    assert Edge(adj, q[j - 1], q[j]);
    if j > i + 1 {
      WalkFinished(adj, finish, q, i, j - 1);
    }
  }

  /** No cycle is reachable from a finished task. */
  lemma NoCycleFromFinished(adj: map<int, seq<int>>, finish: map<int, nat>, root: int)
    requires Finished(adj, finish) && root in finish
    ensures !CycleFrom(adj, root)
  {
    if CycleFrom(adj, root) {
      var c :| Lasso(adj, root, c);
      var i :| 0 <= i < |c| - 1 && c[i] == c[|c| - 1];
      WalkFinished(adj, finish, c, i, |c| - 1);
      assert false;
    }
  }

  /** `hasCycle`: true exactly when a cycle is reachable from taskId once the edge is added. */
  method HasCycle(deps: seq<Dependency>, taskId: int, dependsOnId: int) returns (r: bool, ghost graph: map<int, seq<int>>)
    ensures Proposed(graph, deps, taskId, dependsOnId)
    ensures r <==> CycleFrom(graph, taskId)
  {
    var adj := ProposedAdjacency(deps, taskId, dependsOnId);
    graph := adj;
    var visited, inStack;
    ghost var finish, time;
    r, visited, inStack, finish, time := Dfs(adj, taskId, taskId, {}, {}, [], map[], 0);
    if !r {
      NoCycleFromFinished(adj, finish, taskId);
    }
  }

  // ------------------------------------------------------------------ what the result means

  /** The stored dependencies, acyclic: `rank` strictly decreases from a task to each one it depends on. */
  ghost predicate Ranked(deps: seq<Dependency>, rank: map<int, int>) {
    forall x, y :: Dependency(x, y) in deps ==> x in rank && y in rank && rank[y] < rank[x]
  }

  /** A walk along the stored rows only. */
  ghost predicate StoredPath(deps: seq<Dependency>, q: seq<int>) {
    |q| > 0 && forall k :: 0 <= k < |q| - 1 ==> Dependency(q[k], q[k + 1]) in deps
  }

  /** taskId is reachable from dependsOnId through stored rows, in zero or more steps. */
  ghost predicate Reaches(deps: seq<Dependency>, a: int, b: int) {
    exists q :: StoredPath(deps, q) && q[0] == a && q[|q| - 1] == b
  }

  /** The lists of the map with the proposed edge. */
  ghost predicate Proposed(adj: map<int, seq<int>>, deps: seq<Dependency>, t: int, d: int) {
    forall x :: AdjGet(adj, x) == Listed(deps, x) + (if x == t then [d] else [])
  }

  lemma ProposedEdge(adj: map<int, seq<int>>, deps: seq<Dependency>, t: int, d: int, x: int, y: int)
    requires Proposed(adj, deps, t, d)
    ensures Edge(adj, x, y) <==> Dependency(x, y) in deps || (x == t && y == d)
  {
    ListedMembers(deps, x, y);
    assert AdjGet(adj, x) == Listed(deps, x) + (if x == t then [d] else []);
  }

  /** A proposed self-dependency is a cycle, whatever is stored. */
  lemma SelfDependency(adj: map<int, seq<int>>, deps: seq<Dependency>, t: int)
    requires Proposed(adj, deps, t, t)
    ensures CycleFrom(adj, t)
  {
    ProposedEdge(adj, deps, t, t, t, t);
    assert Lasso(adj, t, [t, t]);
  }

  /** A walk that never leaves a rank-ordered set of rows strictly descends in rank. */
  lemma {:induction false} StoredDescends(deps: seq<Dependency>, rank: map<int, int>, q: seq<int>)
    requires Ranked(deps, rank) && StoredPath(deps, q) && |q| >= 2
    ensures q[0] in rank && q[|q| - 1] in rank && rank[q[|q| - 1]] < rank[q[0]]
    decreases |q|
  {
    assert Dependency(q[0], q[1]) in deps;
    if |q| > 2 {
      var tail := q[1..];
      forall k | 0 <= k < |tail| - 1 ensures Dependency(tail[k], tail[k + 1]) in deps {
        assert tail[k] == q[k + 1] && tail[k + 1] == q[k + 2];
      }
      StoredDescends(deps, rank, tail);
    }
  }

  /** A walk from d to t with the proposed edge gives one along stored rows: cut at the first t. */
  lemma {:induction false} CutAtFirst(adj: map<int, seq<int>>, deps: seq<Dependency>, t: int, d: int, q: seq<int>)
    requires Proposed(adj, deps, t, d) && Path(adj, q) && q[0] == d && t in q
    ensures Reaches(deps, d, t)
    decreases |q|
  {
    if q[0] == t {
      assert StoredPath(deps, [d]);
    } else {
      var f :| 0 <= f < |q| && q[f] == t;
      if f' :| 0 <= f' < f && q[f'] == t {
        CutAtFirst(adj, deps, t, d, q[..f' + 1]);
      } else {
        var s := q[..f + 1];
        forall k | 0 <= k < |s| - 1 ensures Dependency(s[k], s[k + 1]) in deps {
          assert s[k] == q[k] && s[k + 1] == q[k + 1] && q[k] != t;
          ProposedEdge(adj, deps, t, d, q[k], q[k + 1]);
        }
        assert StoredPath(deps, s);
      }
    }
  }

  /**
   * Over acyclic stored dependencies, the proposed edge closes a cycle exactly when taskId is
   * reachable from dependsOnId, reflexively.
   */
  lemma AcyclicMeaning(adj: map<int, seq<int>>, deps: seq<Dependency>, rank: map<int, int>, t: int, d: int)
    requires Proposed(adj, deps, t, d) && Ranked(deps, rank)
    ensures CycleFrom(adj, t) <==> Reaches(deps, d, t)
  {
    if Reaches(deps, d, t) {
      var q :| StoredPath(deps, q) && q[0] == d && q[|q| - 1] == t;
      var c := [t] + q;
      forall k | 0 <= k < |c| - 1 ensures Edge(adj, c[k], c[k + 1]) {
        if k == 0 {
          ProposedEdge(adj, deps, t, d, t, d);
        } else {
          assert c[k] == q[k - 1] && c[k + 1] == q[k];
          ProposedEdge(adj, deps, t, d, q[k - 1], q[k]);
        }
      }
      assert c[0] == c[|c| - 1];
      assert Lasso(adj, t, c);
    }
    if CycleFrom(adj, t) {
      var c :| Lasso(adj, t, c);
      var i :| 0 <= i < |c| - 1 && c[i] == c[|c| - 1];
      ProposedCycle(adj, deps, rank, t, d, c, i);
    }
  }

  /** No cycle runs along stored rows only: ranks would have to decrease back to where they started. */
  lemma StoredCycle(deps: seq<Dependency>, rank: map<int, int>, c: seq<int>, i: nat)
    requires Ranked(deps, rank) && i < |c| - 1 && c[i] == c[|c| - 1]
    ensures exists k :: i <= k < |c| - 1 && Dependency(c[k], c[k + 1]) !in deps
  {
    if forall k :: i <= k < |c| - 1 ==> Dependency(c[k], c[k + 1]) in deps {
      var cyc := c[i..];
      forall k | 0 <= k < |cyc| - 1 ensures Dependency(cyc[k], cyc[k + 1]) in deps {
        assert cyc[k] == c[i + k] && cyc[k + 1] == c[i + k + 1];
      }
      StoredDescends(deps, rank, cyc);
      assert false;
    }
  }

  /** Going round the cycle `c[i..]` from position k + 1 leads back to position k. */
  lemma Rotate(adj: map<int, seq<int>>, c: seq<int>, i: nat, k: nat)
    requires Path(adj, c) && i <= k < |c| - 1 && c[i] == c[|c| - 1]
    ensures var q := c[k + 1..] + c[i + 1..k + 1]; Path(adj, q) && q[0] == c[k + 1] && c[k] in q
  {
    var m := |c| - 1;
    var a := c[k + 1..];
    var q := a + c[i + 1..k + 1];
    if k == i {
      assert q[|a| - 1] == c[m];
    } else {
      assert q[|q| - 1] == c[k];
    }
    forall x | 0 <= x < |q| - 1 ensures Edge(adj, q[x], q[x + 1]) {
      if x < |a| - 1 {
        assert q[x] == c[k + 1 + x] && q[x + 1] == c[k + 2 + x];
      } else if x == |a| - 1 {
        assert q[x] == c[m] && q[x + 1] == c[i + 1];
      } else {
        var y := x - |a|;
        assert q[x] == c[i + 1 + y] && q[x + 1] == c[i + 2 + y];
      }
    }
  }

  /** A cycle with the proposed edge uses it, and going on from d around the cycle reaches t. */
  lemma ProposedCycle(adj: map<int, seq<int>>, deps: seq<Dependency>, rank: map<int, int>, t: int, d: int, c: seq<int>, i: nat)
    requires Proposed(adj, deps, t, d) && Ranked(deps, rank)
    requires Path(adj, c) && i < |c| - 1 && c[i] == c[|c| - 1]
    ensures Reaches(deps, d, t)
  {
    StoredCycle(deps, rank, c, i);
    var k :| i <= k < |c| - 1 && Dependency(c[k], c[k + 1]) !in deps;
    assert Edge(adj, c[k], c[k + 1]);
    ProposedEdge(adj, deps, t, d, c[k], c[k + 1]);
    Rotate(adj, c, i, k);
    CutAtFirst(adj, deps, t, d, c[k + 1..] + c[i + 1..k + 1]);
  }
}
