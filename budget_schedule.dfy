/**
 * POST /api/v1/budget/schedule: the pending tasks are ranked by priority weight per unit of
 * estimated cost and split greedily into those that fit in what is left of today's budget
 * ("runNow") and the rest ("defer"). Today's snapshot rows (capturedAt-descending) and the
 * daily limit are parameters; the store query and `parseFloat` of the setting are not modelled.
 */
module BudgetSchedule {
  import opened Wrappers
  import opened Sorting
  import opened FirstWins
  import opened BudgetSpend
  import JsText

  datatype TaskId = NumberId(n: int) | TextId(s: string)

  datatype PendingTask = PendingTask(id: TaskId, title: string, priority: string, estimatedCost: real)

  /** The reply body; `spentToday` is absent from the reply to an empty task list. */
  datatype Reply = Reply(runNow: seq<PendingTask>, defer: seq<PendingTask>, remainingBudget: real, spentToday: Option<real>)

  /** The default of `BUDGET_DAILY_LIMIT`, in dollars. */
  const DefaultDailyLimit: real := 5.0

  /** The floor under an estimated cost when scoring. */
  const MinCost: real := 0.001

  /** The own properties of `PRIORITY_WEIGHTS`. */
  function OwnWeight(priority: string): Option<real> {
    if priority == "urgent" then Some(5.0)
    else if priority == "high" then Some(4.0)
    else if priority == "medium" then Some(3.0)
    else if priority == "low" then Some(2.0)
    else if priority == "none" then Some(1.0)
    else None
  }

  /** What `PRIORITY_WEIGHTS[t.priority] ?? 1` yields: a number, or an inherited member `??` keeps. */
  datatype WeightValue = Number(w: real) | PrototypeMember(name: string)

  /** The lookup as written: a property read on a plain object literal, then `?? 1`. */
  function WeightAsWritten(priority: string): WeightValue {
    if OwnWeight(priority).Some? then Number(OwnWeight(priority).value)
    else if priority in JsText.ObjectPrototypeMembers then PrototypeMember(priority)
    else Number(1.0)
  }

  /**
   * The score as written; `None` stands for NaN, which dividing an inherited member (a function
   * or `Object.prototype`) by a number gives.
   */
  function ScoreAsWritten(t: PendingTask): Option<real> {
    match WeightAsWritten(t.priority)
    case Number(w) => Some(w / MaxReal(t.estimatedCost, MinCost))
    case PrototypeMember(_) => None
  }

  /**
   * A priority sent as "toString" reads the inherited method instead of falling back to 1, so the
   * task's score is NaN and the sort's comparator answers NaN for it.
   */
  lemma WeightAsWrittenLeaks(t: PendingTask)
    requires t.priority == "toString"
    ensures WeightAsWritten(t.priority) == PrototypeMember("toString") && ScoreAsWritten(t).None?
  {
    assert "toString"[0] == 't';
    assert OwnWeight(t.priority).None?;
  }

  /** Away from the inherited names the corrected weight and score are the ones written. */
  lemma WeightAgrees(t: PendingTask)
    requires t.priority !in JsText.ObjectPrototypeMembers
    ensures WeightAsWritten(t.priority) == Number(Weight(t.priority))
    ensures ScoreAsWritten(t) == Some(Score(t))
  {
  }

  /** `PRIORITY_WEIGHTS[priority] ?? 1` with an own-property lookup: any other string weighs 1. */
  function Weight(priority: string): (w: real)
    ensures 1.0 <= w <= 5.0
  {
    if priority == "urgent" then 5.0
    else if priority == "high" then 4.0
    else if priority == "medium" then 3.0
    else if priority == "low" then 2.0
    else 1.0
  }

  /** `weight / Math.max(estimatedCost, 0.001)`. */
  function Score(t: PendingTask): (s: real)
    ensures s > 0.0
  {
    Weight(t.priority) / MaxReal(t.estimatedCost, MinCost)
  }

  /**
   * The tasks in the order the loop visits them. The source spreads each task into an object
   * with its score and strips the score again in the reply, so the model sorts the tasks
   * themselves with the score as key.
   */
  function Ranked(tasks: seq<PendingTask>): seq<PendingTask> {
    SortDesc(tasks, Score)
  }

  function Cost(ts: seq<PendingTask>): real {
    if ts == [] then 0.0 else ts[0].estimatedCost + Cost(ts[1..])
  }

  /** The outcome of the greedy fill: the two lists and the budget left over. */
  datatype Fill = Fill(runNow: seq<PendingTask>, defer: seq<PendingTask>, left: real)

  /** The fill of `ts` against budget `b`: each task runs if it fits in what is left, else waits. */
  function Greedy(ts: seq<PendingTask>, b: real): Fill {
    if ts == [] then Fill([], [], b)
    else if b >= ts[0].estimatedCost then
      var g := Greedy(ts[1..], b - ts[0].estimatedCost);
      Fill([ts[0]] + g.runNow, g.defer, g.left)
    else
      var g := Greedy(ts[1..], b);
      Fill(g.runNow, [ts[0]] + g.defer, g.left)
  }

  /** The sum of the non-litellm spends, in the order the map yields its rows. */
  function OtherSpend(rows: seq<Snapshot>): real {
    if rows == [] then 0.0
    else
      var last := rows[|rows| - 1];
      OtherSpend(rows[..|rows| - 1]) + (if last.source != Litellm then last.spendAmount.GetOr(0.0) else 0.0)
  }

  /** `totalSpent`: the larger of the litellm spend and the other sources' spends added up. */
  function TotalSpent(snapshots: seq<Snapshot>): real {
    MaxReal(SpendOf(LatestBySource(snapshots), Litellm), OtherSpend(Firsts(snapshots, SourceOf)))
  }

  function Remaining(dailyLimit: real, spent: real): (r: real)
    ensures r >= 0.0 && r >= dailyLimit - spent
    ensures r == 0.0 || r == dailyLimit - spent
  {
    MaxReal(0.0, dailyLimit - spent)
  }

  /** The loop `for (const task of scored)` that fills runNow and defer. */
  method FillRunNow(ranked: seq<PendingTask>, remaining: real) returns (runNow: seq<PendingTask>, defer: seq<PendingTask>, budgetLeft: real)
    ensures Fill(runNow, defer, budgetLeft) == Greedy(ranked, remaining)
  {
    runNow, defer, budgetLeft := [], [], remaining;
    ghost var whole := Greedy(ranked, remaining);
    var i := 0;
    while i < |ranked|
      invariant 0 <= i <= |ranked|
      invariant var g := Greedy(ranked[i..], budgetLeft);
        runNow + g.runNow == whole.runNow && defer + g.defer == whole.defer && g.left == whole.left
    {
      var task := ranked[i];
      assert ranked[i..][1..] == ranked[i + 1..];
      if budgetLeft >= task.estimatedCost {
        var g := Greedy(ranked[i + 1..], budgetLeft - task.estimatedCost);
        assert runNow + [task] + g.runNow == runNow + ([task] + g.runNow);
        runNow := runNow + [task];
        budgetLeft := budgetLeft - task.estimatedCost;
      } else {
        var g := Greedy(ranked[i + 1..], budgetLeft);
        assert defer + [task] + g.defer == defer + ([task] + g.defer);
        defer := defer + [task];
      }
      i := i + 1;
    }
  }

  /** `POST`, with `tasks` the body's `tasks` field and `snapshots` today's rows, latest first. */
  method Schedule(tasks: Option<seq<PendingTask>>, snapshots: seq<Snapshot>, dailyLimit: real) returns (reply: Reply)
    ensures tasks.GetOr([]) == [] ==> reply == Reply([], [], 0.0, None)
    ensures tasks.GetOr([]) != [] ==>
      var spent := TotalSpent(snapshots);
      var g := Greedy(Ranked(tasks.value), Remaining(dailyLimit, spent));
      reply == Reply(g.runNow, g.defer, Remaining(dailyLimit, spent), Some(spent))
  {
    var ts := tasks.GetOr([]);
    if |ts| == 0 {
      return Reply([], [], 0.0, None);
    }
    var order, latest := FillFirstWins(snapshots, SourceOf);
    var totalSpent := MaxReal(SpendOf(latest, Litellm), OtherSpend(order));
    var remaining := MaxReal(0.0, dailyLimit - totalSpent);
    var scored := SortDesc(ts, Score);
    var runNow, defer, budgetLeft := FillRunNow(scored, remaining);
    reply := Reply(runNow, defer, remaining, Some(totalSpent));
  }

  // ------------------------------------------------------------------ properties

  /** The weights are 5, 4, 3, 2, 1 for urgent, high, medium, low, none; any other string weighs as none. */
  lemma WeightTable(other: string)
    requires other != "urgent" && other != "high" && other != "medium" && other != "low"
    ensures Weight("urgent") == 5.0 && Weight("high") == 4.0 && Weight("medium") == 3.0 && Weight("low") == 2.0
    ensures Weight("none") == 1.0 && Weight(other) == 1.0
  {
    assert "high" != "urgent" by { assert "high"[0] != "urgent"[0]; }
    assert "medium" != "urgent" && "medium" != "high" by { assert "medium"[0] == 'm'; }
    assert "low" != "urgent" && "low" != "high" && "low" != "medium" by { assert "low"[0] == 'l'; }
    assert "none" != "urgent" && "none" != "high" && "none" != "medium" && "none" != "low" by { assert "none"[0] == 'n'; }
  }

  /** At equal cost the higher weight scores higher; at equal weight the cheaper task does (above the floor). */
  lemma ScoreMonotone(a: PendingTask, b: PendingTask)
    ensures a.estimatedCost == b.estimatedCost && Weight(a.priority) > Weight(b.priority) ==> Score(a) > Score(b)
    ensures Weight(a.priority) == Weight(b.priority) && MinCost <= a.estimatedCost < b.estimatedCost ==> Score(a) > Score(b)
  {
    var ca, cb := MaxReal(a.estimatedCost, MinCost), MaxReal(b.estimatedCost, MinCost);
    var wa, wb := Weight(a.priority), Weight(b.priority);
    if a.estimatedCost == b.estimatedCost && wa > wb {
      assert wa / ca > wb / ca by { assert wa / ca - wb / ca == (wa - wb) / ca; }
    }
    if wa == wb && MinCost <= a.estimatedCost < b.estimatedCost {
      assert ca == a.estimatedCost && cb == b.estimatedCost;
      assert wa / ca > wa / cb by {
        assert wa / ca - wa / cb == wa * (cb - ca) / (ca * cb);
      }
    }
  }

  /** A cost at or below the floor, zero or negative included, scores 1000 times its weight. */
  lemma CheapScore(t: PendingTask)
    requires t.estimatedCost <= MinCost
    ensures Score(t) == Weight(t.priority) * 1000.0
  {
  }

  /** runNow and defer together hold exactly the visited tasks. */
  lemma {:induction false} GreedyPermutation(ts: seq<PendingTask>, b: real)
    ensures multiset(Greedy(ts, b).runNow) + multiset(Greedy(ts, b).defer) == multiset(ts)
  {
    if ts != [] {
      assert ts == [ts[0]] + ts[1..];
      GreedyPermutation(ts[1..], b - ts[0].estimatedCost);
      GreedyPermutation(ts[1..], b);
    }
  }

  /** What runs costs exactly what the budget loses; and a non-negative budget is never overdrawn. */
  lemma {:induction false} GreedySpend(ts: seq<PendingTask>, b: real)
    ensures Cost(Greedy(ts, b).runNow) + Greedy(ts, b).left == b
    ensures b >= 0.0 ==> Greedy(ts, b).left >= 0.0
  {
    if ts != [] {
      var c := ts[0].estimatedCost;
      if b >= c {
        GreedySpend(ts[1..], b - c);
        var g := Greedy(ts[1..], b - c);
        assert ([ts[0]] + g.runNow)[1..] == g.runNow;
      } else {
        GreedySpend(ts[1..], b);
      }
    }
  }

  /** With no negative estimate, the budget left is at most the budget. */
  lemma {:induction false} GreedyLeftAtMost(ts: seq<PendingTask>, b: real)
    requires forall k :: 0 <= k < |ts| ==> ts[k].estimatedCost >= 0.0
    ensures Greedy(ts, b).left <= b
  {
    if ts != [] {
      var c := ts[0].estimatedCost;
      assert ts[0].estimatedCost >= 0.0;
      forall k | 0 <= k < |ts[1..]| ensures ts[1..][k].estimatedCost >= 0.0 {
        assert ts[1..][k] == ts[k + 1];
      }
      if b >= c {
        GreedyLeftAtMost(ts[1..], b - c);
      } else {
        GreedyLeftAtMost(ts[1..], b);
      }
    }
  }

  /** With no negative estimate, no deferred task would fit in the budget left at the end. */
  lemma {:induction false} DeferredDoNotFit(ts: seq<PendingTask>, b: real)
    requires forall k :: 0 <= k < |ts| ==> ts[k].estimatedCost >= 0.0
    ensures forall k :: 0 <= k < |Greedy(ts, b).defer| ==> Greedy(ts, b).defer[k].estimatedCost > Greedy(ts, b).left
  {
    if ts != [] {
      var c := ts[0].estimatedCost;
      forall k | 0 <= k < |ts[1..]| ensures ts[1..][k].estimatedCost >= 0.0 {
        assert ts[1..][k] == ts[k + 1];
      }
      if b >= c {
        DeferredDoNotFit(ts[1..], b - c);
      } else {
        DeferredDoNotFit(ts[1..], b);
        GreedyLeftAtMost(ts[1..], b);
        var g := Greedy(ts[1..], b);
        forall k | 0 <= k < |[ts[0]] + g.defer| ensures ([ts[0]] + g.defer)[k].estimatedCost > g.left {
          if k > 0 {
            assert ([ts[0]] + g.defer)[k] == g.defer[k - 1];
          }
        }
      }
    }
  }

  /** When the budget covers every (non-negative) estimate, everything runs, in order. */
  lemma {:induction false} AllFit(ts: seq<PendingTask>, b: real)
    requires forall k :: 0 <= k < |ts| ==> ts[k].estimatedCost >= 0.0
    requires Cost(ts) <= b
    ensures Greedy(ts, b).runNow == ts && Greedy(ts, b).defer == []
  {
    if ts != [] {
      forall k | 0 <= k < |ts[1..]| ensures ts[1..][k].estimatedCost >= 0.0 {
        assert ts[1..][k] == ts[k + 1];
      }
      CostNonNegative(ts[1..]);
      AllFit(ts[1..], b - ts[0].estimatedCost);
    }
  }

  lemma {:induction false} CostNonNegative(ts: seq<PendingTask>)
    requires forall k :: 0 <= k < |ts| ==> ts[k].estimatedCost >= 0.0
    ensures Cost(ts) >= 0.0
  {
    if ts != [] {
      forall k | 0 <= k < |ts[1..]| ensures ts[1..][k].estimatedCost >= 0.0 {
        assert ts[1..][k] == ts[k + 1];
      }
      CostNonNegative(ts[1..]);
    }
  }

  /** A task that does not fit is deferred without using budget, so the scan goes on: a later task that fits still runs. */
  lemma DeferredDoesNotStop(dear: PendingTask, cheap: PendingTask, rest: seq<PendingTask>, b: real)
    requires dear.estimatedCost > b >= cheap.estimatedCost
    ensures Greedy([dear] + rest, b) == Fill(Greedy(rest, b).runNow, [dear] + Greedy(rest, b).defer, Greedy(rest, b).left)
    ensures Greedy([dear, cheap], b).runNow == [cheap] && Greedy([dear, cheap], b).defer == [dear]
  {
    assert ([dear] + rest)[1..] == rest;
    assert [dear, cheap][1..] == [cheap];
    assert [cheap][1..] == [];
    assert Greedy([cheap], b) == Fill([cheap], [], b - cheap.estimatedCost);
    assert Greedy([dear, cheap], b) == Fill([cheap], [dear], b - cheap.estimatedCost);
  }

  /** Both lists keep the visiting order, so both are in non-increasing score order. */
  lemma {:induction false} GreedyKeepsOrder(ts: seq<PendingTask>, b: real)
    requires SortedDesc(ts, Score)
    ensures SortedDesc(Greedy(ts, b).runNow, Score) && SortedDesc(Greedy(ts, b).defer, Score)
  {
    if ts != [] {
      var c := ts[0].estimatedCost;
      var b' := if b >= c then b - c else b;
      var g := Greedy(ts[1..], b');
      assert SortedDesc(ts[1..], Score) by {
        forall i, j | 0 <= i < j < |ts[1..]| ensures Score(ts[1..][i]) >= Score(ts[1..][j]) {
          assert ts[1..][i] == ts[i + 1] && ts[1..][j] == ts[j + 1];
        }
      }
      GreedyKeepsOrder(ts[1..], b');
      GreedyPermutation(ts[1..], b');
      HeadAbove(ts, g.runNow);
      HeadAbove(ts, g.defer);
      if b >= c {
        PrependSorted(ts[0], g.runNow);
      } else {
        PrependSorted(ts[0], g.defer);
      }
    }
  }

  lemma HeadAbove(ts: seq<PendingTask>, part: seq<PendingTask>)
    requires ts != [] && SortedDesc(ts, Score)
    requires multiset(part) <= multiset(ts[1..])
    ensures forall k :: 0 <= k < |part| ==> Score(ts[0]) >= Score(part[k])
  {
    forall k | 0 <= k < |part| ensures Score(ts[0]) >= Score(part[k]) {
      assert part[k] in multiset(part);
      assert part[k] in multiset(ts[1..]);
      var m :| 0 <= m < |ts[1..]| && ts[1..][m] == part[k];
      assert ts[m + 1] == part[k];
    }
  }

  lemma PrependSorted(h: PendingTask, s: seq<PendingTask>)
    requires SortedDesc(s, Score)
    requires forall k :: 0 <= k < |s| ==> Score(h) >= Score(s[k])
    ensures SortedDesc([h] + s, Score)
  {
    var r := [h] + s;
    forall i, j | 0 <= i < j < |r| ensures Score(r[i]) >= Score(r[j]) {
      assert r[j] == s[j - 1];
      if i > 0 {
        assert r[i] == s[i - 1];
      }
    }
  }

  /** The reply's lists: a permutation of the input tasks, each in non-increasing score order, within the budget. */
  lemma ReplyLists(tasks: seq<PendingTask>, remaining: real)
    requires remaining >= 0.0
    ensures var g := Greedy(Ranked(tasks), remaining);
      multiset(g.runNow) + multiset(g.defer) == multiset(tasks) &&
      SortedDesc(g.runNow, Score) && SortedDesc(g.defer, Score) &&
      Cost(g.runNow) + g.left == remaining && g.left >= 0.0
  {
    GreedyPermutation(Ranked(tasks), remaining);
    GreedyKeepsOrder(Ranked(tasks), remaining);
    GreedySpend(Ranked(tasks), remaining);
  }

  /**
   * The spend of today counts each source once, by its latest snapshot: the larger of the
   * litellm spend and the sum of the three direct sources' spends.
   */
  lemma SpentPerSource(snapshots: seq<Snapshot>)
    ensures var m := LatestBySource(snapshots);
      TotalSpent(snapshots) == MaxReal(SpendOf(m, Litellm), SpendOf(m, OpenaiDirect) + SpendOf(m, AnthropicDirect) + SpendOf(m, OpenrouterDirect))
  {
    var f := Firsts(snapshots, SourceOf);
    FirstsDistinct(snapshots, SourceOf);
    OtherSpendParts(f);
    PartOfFirsts(snapshots, OpenaiDirect);
    PartOfFirsts(snapshots, AnthropicDirect);
    PartOfFirsts(snapshots, OpenrouterDirect);
  }

  /** The spend of the first row of `source` in `rows`, 0 when there is none. */
  function Part(rows: seq<Snapshot>, source: BudgetSource): real {
    if source in KeysOf(rows, SourceOf) then FirstWith(rows, SourceOf, source).spendAmount.GetOr(0.0) else 0.0
  }

  lemma PartOfFirsts(snapshots: seq<Snapshot>, source: BudgetSource)
    ensures Part(Firsts(snapshots, SourceOf), source) == SpendOf(LatestBySource(snapshots), source)
  {
    var f := Firsts(snapshots, SourceOf);
    if source in KeysOf(snapshots, SourceOf) {
      var i := FirstWithIsFirst(f, SourceOf, source);
      FirstsAreFirst(snapshots, SourceOf, i);
    }
  }

  lemma {:induction false} OtherSpendParts(rows: seq<Snapshot>)
    requires KeysDistinct(rows, SourceOf)
    ensures OtherSpend(rows) == Part(rows, OpenaiDirect) + Part(rows, AnthropicDirect) + Part(rows, OpenrouterDirect)
    decreases |rows|
  {
    if rows != [] {
      var init := rows[..|rows| - 1];
      var x := rows[|rows| - 1];
      assert rows == init + [x];
      assert KeysDistinct(init, SourceOf) by {
        forall i, j | 0 <= i < j < |init| ensures SourceOf(init[i]) != SourceOf(init[j]) {
          assert init[i] == rows[i] && init[j] == rows[j];
        }
      }
      assert SourceOf(x) !in KeysOf(init, SourceOf) by {
        forall i | 0 <= i < |init| ensures SourceOf(init[i]) != SourceOf(x) {
          assert init[i] == rows[i];
        }
      }
      OtherSpendParts(init);
      PartSnoc(init, x, OpenaiDirect);
      PartSnoc(init, x, AnthropicDirect);
      PartSnoc(init, x, OpenrouterDirect);
    }
  }

  lemma PartSnoc(init: seq<Snapshot>, x: Snapshot, source: BudgetSource)
    requires SourceOf(x) !in KeysOf(init, SourceOf)
    ensures Part(init + [x], source) ==
      if x.source == source then x.spendAmount.GetOr(0.0) else Part(init, source)
  {
    KeysOfAppend(init, x, SourceOf);
    if x.source == source {
      FirstWithLast(init, x, SourceOf);
    } else if source in KeysOf(init, SourceOf) {
      FirstWithPrefix(init, x, SourceOf, source);
    }
  }
}
