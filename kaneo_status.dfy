/**
 * The status rules of the Kaneo migration: `mapStatus`, which turns a Kaneo status into a
 * Palais one through an object literal, and `DEFAULT_COLUMNS`, whose `statuses` say which column
 * a status lands in.
 */
module KaneoStatus {
  import opened Wrappers
  import opened JsText
  import Projects

  /** The own properties of the `map` literal: the Palais status for each listed Kaneo key. */
  function OwnStatus(key: string): Option<string> {
    if key == "backlog" || key == "todo" then Some("backlog")
    else if key == "in-progress" || key == "in_progress" then Some("in-progress")
    else if key == "done" || key == "cancelled" then Some("done")
    else if key == "review" then Some("review")
    else None
  }

  /**
   * The property key `map[kaneoStatus?.toLowerCase()]` reads: the lower-cased status, or
   * `undefined` (which a property access turns into the key "undefined") when there is none.
   */
  function StatusKey(kaneoStatus: Option<string>): string {
    if kaneoStatus.Some? then ToLower(kaneoStatus.value) else "undefined"
  }

  /** What `mapStatus` returns: a string, or an inherited prototype member that `??` keeps. */
  datatype StatusValue = Status(text: string) | PrototypeMember(name: string)

  /** `mapStatus` as written: a property read on a plain object literal, then `?? 'backlog'`. */
  function MapStatusAsWritten(kaneoStatus: Option<string>): StatusValue {
    var key := StatusKey(kaneoStatus);
    if OwnStatus(key).Some? then Status(OwnStatus(key).value)
    else if key in ObjectPrototypeMembers then PrototypeMember(key)
    else Status("backlog")
  }

  /**
   * A Kaneo status named like an inherited member, such as "constructor", yields that member
   * (a function), not a status string.
   */
  lemma MapStatusAsWrittenLeaks()
    ensures MapStatusAsWritten(Some("constructor")) == PrototypeMember("constructor")
  {
    var k := "constructor";
    assert forall i :: 0 <= i < |k| ==> 'a' <= k[i] <= 'z';
    LowerOfLower(k);
    ConstructorNotOwn();
    assert k in ObjectPrototypeMembers;
  }

  /** Text without capitals is its own lower case. */
  lemma LowerOfLower(s: string)
    requires forall i :: 0 <= i < |s| ==> !IsAsciiUpper(s[i])
    ensures ToLower(s) == s
  {
    assert forall i :: 0 <= i < |s| ==> ToLower(s)[i] == s[i];
  }

  lemma ConstructorNotOwn()
    ensures OwnStatus("constructor").None?
  {
    var k := "constructor";
    assert |k| == 11 && k[0] == 'c';
    assert "in-progress"[0] == 'i' && "in_progress"[0] == 'i';
  }

  /** `mapStatus` with an own-property lookup: unknown and missing statuses become backlog. */
  function MapStatus(kaneoStatus: Option<string>): (r: string)
    ensures r in {"backlog", "in-progress", "done", "review"}
  {
    var key := StatusKey(kaneoStatus);
    OwnStatus(key).GetOr("backlog")
  }

  /**
   * backlog and todo give backlog, in-progress and in_progress give in-progress, done and
   * cancelled give done, review gives review, all ignoring case, and anything else (a missing
   * status included) gives backlog.
   */
  lemma MapStatusCases(kaneoStatus: Option<string>)
    ensures var k := StatusKey(kaneoStatus);
      var r := MapStatus(kaneoStatus);
      (k == "backlog" || k == "todo" ==> r == "backlog")
      && (k == "in-progress" || k == "in_progress" ==> r == "in-progress")
      && (k == "done" || k == "cancelled" ==> r == "done")
      && (k == "review" ==> r == "review")
      && (k !in {"backlog", "todo", "in-progress", "in_progress", "done", "cancelled", "review"} ==> r == "backlog")
      && (kaneoStatus.None? ==> r == "backlog")
  {
  }

  /** Upper and lower case give the same status. */
  lemma MapStatusIgnoresCase(s: string)
    ensures MapStatus(Some(s)) == MapStatus(Some(ToLower(s)))
  {
    ToLowerIdempotent(s);
  }

  /** Away from the inherited names the corrected lookup is the one written. */
  lemma MapStatusAgrees(kaneoStatus: Option<string>)
    requires StatusKey(kaneoStatus) !in ObjectPrototypeMembers
    ensures MapStatusAsWritten(kaneoStatus) == Status(MapStatus(kaneoStatus))
  {
  }

  // ------------------------------------------------------------------ the default columns

  /** A `DEFAULT_COLUMNS` entry; `isFinal` is given only for Done. */
  datatype KaneoColumn = KaneoColumn(name: string, statuses: seq<string>, position: int, isFinal: Option<bool>)

  const DefaultColumns: seq<KaneoColumn> := [
    KaneoColumn("Backlog", ["backlog", "todo"], 0, None),
    KaneoColumn("Planning", ["planning"], 1, None),
    KaneoColumn("Assigned", ["assigned"], 2, None),
    KaneoColumn("In Progress", ["in-progress", "in_progress"], 3, None),
    KaneoColumn("Review", ["review"], 4, None),
    KaneoColumn("Done", ["done", "cancelled"], 5, Some(true))]

  /**
   * Six columns at positions 0 to 5, named as the app's own default columns, with only the
   * last, Done, final once `isFinal ?? false` is applied.
   */
  lemma DefaultColumnsShape()
    ensures |DefaultColumns| == 6 == |Projects.DefaultColumnNames|
    ensures forall i :: 0 <= i < 6 ==> DefaultColumns[i].position == i
    ensures forall i :: 0 <= i < 6 ==> DefaultColumns[i].name == Projects.DefaultColumnNames[i]
    ensures forall i :: 0 <= i < 6 ==> (DefaultColumns[i].isFinal.GetOr(false) <==> i == 5)
  {
  }

  /** The column whose `statuses` list the status, if any. */
  function ColumnOf(status: string): (r: Option<nat>)
    ensures r.Some? ==> r.value < |DefaultColumns| && status in DefaultColumns[r.value].statuses
    ensures r.None? ==> forall i :: 0 <= i < |DefaultColumns| ==> status !in DefaultColumns[i].statuses
  {
    if status in DefaultColumns[0].statuses then Some(0)
    else if status in DefaultColumns[1].statuses then Some(1)
    else if status in DefaultColumns[2].statuses then Some(2)
    else if status in DefaultColumns[3].statuses then Some(3)
    else if status in DefaultColumns[4].statuses then Some(4)
    else if status in DefaultColumns[5].statuses then Some(5)
    else None
  }

  /** No status is listed by two columns, so the status-to-column map is well defined. */
  lemma StatusesDisjoint()
    ensures forall i, j, s :: 0 <= i < j < |DefaultColumns| && s in DefaultColumns[i].statuses ==> s !in DefaultColumns[j].statuses
  {
  }

  /** Every mapped status is listed by a column, so a migrated task always finds its column. */
  lemma EveryStatusHasColumn(kaneoStatus: Option<string>)
    ensures ColumnOf(MapStatus(kaneoStatus)).Some?
    ensures var c := DefaultColumns[ColumnOf(MapStatus(kaneoStatus)).value];
      MapStatus(kaneoStatus) in c.statuses
  {
  }
}
