/**
 * Today's budget snapshots as the schedule route and the budget detector read them: the
 * rows come from the store in capturedAt-descending order, and the first row of each source
 * (its latest) is kept in a `Map`. Snapshots are cumulative, so a source's spend is its
 * latest snapshot's `spendAmount` (absent counts 0).
 */
module BudgetSpend {
  import opened Wrappers
  import opened FirstWins

  datatype BudgetSource = Litellm | OpenaiDirect | AnthropicDirect | OpenrouterDirect

  datatype Snapshot = Snapshot(source: BudgetSource, spendAmount: Option<real>, capturedAt: int)

  function SourceOf(s: Snapshot): BudgetSource {
    s.source
  }

  function MaxReal(a: real, b: real): (r: real)
    ensures r >= a && r >= b && (r == a || r == b)
  {
    if a >= b then a else b
  }

  /** `latestBySource.get(source)?.spendAmount ?? 0`. */
  function SpendOf(latest: map<BudgetSource, Snapshot>, source: BudgetSource): (r: real)
    ensures source !in latest ==> r == 0.0
  {
    if source in latest then latest[source].spendAmount.GetOr(0.0) else 0.0
  }

  /** The latest snapshot of each source, from rows in capturedAt-descending order. */
  function LatestBySource(snapshots: seq<Snapshot>): map<BudgetSource, Snapshot> {
    FirstMap(snapshots, SourceOf)
  }

  /**
   * A source with a row today has a latest snapshot: a row of that source with no row of the
   * same source before it in capturedAt-descending order.
   */
  lemma LatestIsFirst(snapshots: seq<Snapshot>, source: BudgetSource, i: nat)
    requires i < |snapshots| && snapshots[i].source == source
    ensures source in LatestBySource(snapshots)
    ensures exists j :: (0 <= j <= i && snapshots[j] == LatestBySource(snapshots)[source] &&
      snapshots[j].source == source && forall h :: 0 <= h < j ==> snapshots[h].source != source)
  {
    assert SourceOf(snapshots[i]) == source;
    var j := FirstWithIsFirst(snapshots, SourceOf, source);
    assert j <= i;
  }
}
