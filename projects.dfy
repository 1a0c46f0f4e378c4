/**
 * The `projects` and `columns` tables, and the project creation both the MCP tool and the
 * REST route perform: one project row, then the six default Kanban columns in a loop. The
 * keys of the `workspaces` table, which a project references, are a parameter.
 */
module Projects {
  import opened Wrappers
  import opened Sorting
  import Slug
  import McpTasksTool

  datatype Project = Project(
    id: int, workspaceId: int, name: string, slug: string, icon: Option<string>,
    description: Option<string>, createdAt: int, updatedAt: int)

  datatype Column = Column(id: int, projectId: int, name: string, position: int, isFinal: bool, color: Option<string>)

  /** `defaultCols`, shared by the MCP create and the REST create. */
  const DefaultColumnNames: seq<string> := ["Backlog", "Planning", "Assigned", "In Progress", "Review", "Done"]

  /** The column the loop inserts at step i. */
  function DefaultColumn(projectId: int, i: nat, id: int): Column
    requires i < |DefaultColumnNames|
  {
    Column(id, projectId, DefaultColumnNames[i], i, i == |DefaultColumnNames| - 1, None)
  }

  /** The first n default columns of a project, with serial ids from firstId. */
  function DefaultColumns(projectId: int, firstId: int, n: nat): seq<Column>
    requires n <= |DefaultColumnNames|
  {
    if n == 0 then [] else DefaultColumns(projectId, firstId, n - 1) + [DefaultColumn(projectId, n - 1, firstId + n - 1)]
  }

  /**
   * A created project gets exactly six columns, Backlog, Planning, Assigned, In Progress,
   * Review and Done, at positions 0 to 5, all of that project, and only the last, Done, is final.
   */
  lemma DefaultColumnsShape(projectId: int, firstId: int)
    ensures |DefaultColumns(projectId, firstId, 6)| == 6
    ensures var cs := DefaultColumns(projectId, firstId, 6);
      cs[0].name == "Backlog" && cs[1].name == "Planning" && cs[2].name == "Assigned"
      && cs[3].name == "In Progress" && cs[4].name == "Review" && cs[5].name == "Done"
    ensures var cs := DefaultColumns(projectId, firstId, 6);
      forall i :: 0 <= i < 6 ==> cs[i].position == i && cs[i].projectId == projectId && cs[i].id == firstId + i
    ensures var cs := DefaultColumns(projectId, firstId, 6);
      forall i :: 0 <= i < 6 ==> (cs[i].isFinal <==> i == 5)
  {
    DefaultColumnsAt(projectId, firstId, 6, 0);
    forall i | 0 <= i < 6
      ensures DefaultColumns(projectId, firstId, 6)[i] == DefaultColumn(projectId, i, firstId + i)
    {
      DefaultColumnsAt(projectId, firstId, 6, i);
    }
  }

  lemma {:induction false} DefaultColumnsAt(projectId: int, firstId: int, n: nat, i: nat)
    requires i < n <= |DefaultColumnNames|
    ensures |DefaultColumns(projectId, firstId, n)| == n
    ensures DefaultColumns(projectId, firstId, n)[i] == DefaultColumn(projectId, i, firstId + i)
  {
    if i < n - 1 {
      DefaultColumnsAt(projectId, firstId, n - 1, i);
    } else if n > 1 {
      DefaultColumnsAt(projectId, firstId, n - 1, 0);
    }
  }

  /** The row `insert(projects).values({ workspaceId, name, slug, description })` adds. */
  function NewProject(id: int, workspaceId: int, name: string, description: Option<string>, now: int): Project {
    Project(id, workspaceId, name, Slug.Slug(name), None, description, now, now)
  }

  /**
   * The store accepts the row when the workspace exists and the name and the slug fit their
   * 200 characters.
   */
  predicate ProjectAccepted(workspaceId: int, name: string, workspaceIds: set<int>) {
    workspaceId in workspaceIds && |name| <= 200 && |Slug.Slug(name)| <= 200
  }

  /** The slug never makes an insert fail: a name that fits gives a slug that fits. */
  lemma SlugFits(workspaceId: int, name: string, workspaceIds: set<int>)
    ensures ProjectAccepted(workspaceId, name, workspaceIds) <==> workspaceId in workspaceIds && |name| <= 200
  {
    Slug.SlugShape(name);
  }

  function ProjectIds(ps: seq<Project>): (r: seq<int>)
    ensures |r| == |ps| && forall i :: 0 <= i < |ps| ==> r[i] == ps[i].id
  {
    seq(|ps|, i requires 0 <= i < |ps| => ps[i].id)
  }

  function ColumnIds(cs: seq<Column>): (r: seq<int>)
    ensures |r| == |cs| && forall i :: 0 <= i < |cs| ==> r[i] == cs[i].id
  {
    seq(|cs|, i requires 0 <= i < |cs| => cs[i].id)
  }

  // ------------------------------------------------------------------ listing

  /** `orderBy(projects.updatedAt)`: ascending, as a stable sort on the negated time. */
  function UpdatedAtDesc(p: Project): real {
    -(p.updatedAt as real)
  }

  /** The rows of the workspace when one is given, else all rows. */
  function InWorkspace(ps: seq<Project>, workspaceId: Option<int>): (r: seq<Project>)
    ensures |r| <= |ps|
    ensures forall p :: p in r <==> p in ps && (workspaceId.Some? ==> p.workspaceId == workspaceId.value)
  {
    if ps == [] then []
    else
      var init := ps[..|ps| - 1];
      var last := ps[|ps| - 1];
      assert ps == init + [last];
      var rest := InWorkspace(init, workspaceId);
      if workspaceId.None? || last.workspaceId == workspaceId.value then rest + [last] else rest
  }

  function ListProjects(ps: seq<Project>, workspaceId: Option<int>): seq<Project> {
    SortDesc(InWorkspace(ps, workspaceId), UpdatedAtDesc)
  }

  /**
   * The listing holds the rows of the workspace (all rows with none), each as often as in the
   * table, and the least recently updated first.
   */
  lemma ListProjectsContract(ps: seq<Project>, workspaceId: Option<int>)
    ensures var r := ListProjects(ps, workspaceId);
      multiset(r) == multiset(InWorkspace(ps, workspaceId))
      && (forall p :: p in r <==> p in ps && (workspaceId.Some? ==> p.workspaceId == workspaceId.value))
      && forall i, j :: 0 <= i < j < |r| ==> r[i].updatedAt <= r[j].updatedAt
  {
    var m := InWorkspace(ps, workspaceId);
    var r := ListProjects(ps, workspaceId);
    forall p ensures p in r <==> p in m {
      SortDescMembers(m, UpdatedAtDesc, p);
    }
    forall i, j | 0 <= i < j < |r| ensures r[i].updatedAt <= r[j].updatedAt {
      assert UpdatedAtDesc(r[i]) >= UpdatedAtDesc(r[j]);
    }
  }

  /** With no workspace the listing is the whole table, reordered. */
  lemma ListAllIsPermutation(ps: seq<Project>)
    ensures multiset(ListProjects(ps, None)) == multiset(ps)
  {
    InWorkspaceAll(ps);
  }

  lemma {:induction false} InWorkspaceAll(ps: seq<Project>)
    ensures InWorkspace(ps, None) == ps
  {
    if ps != [] {
      InWorkspaceAll(ps[..|ps| - 1]);
      assert ps == ps[..|ps| - 1] + [ps[|ps| - 1]];
    }
  }

  // ------------------------------------------------------------------ the tables

  /** Every column points at an existing project. */
  ghost predicate ColumnsOwned(projects: seq<Project>, columns: seq<Column>) {
    forall i :: 0 <= i < |columns| ==> columns[i].projectId in ProjectIds(projects)
  }

  /** A column row with the next serial id, of an existing project, keeps the table valid. */
  lemma AppendColumn(projects: seq<Project>, columns: seq<Column>, next: int, c: Column)
    requires McpTasksTool.IdsBelow(ColumnIds(columns), next) && ColumnsOwned(projects, columns)
    requires c.id == next && c.projectId in ProjectIds(projects)
    ensures McpTasksTool.IdsBelow(ColumnIds(columns + [c]), next + 1) && ColumnsOwned(projects, columns + [c])
  {
    assert ColumnIds(columns + [c]) == ColumnIds(columns) + [next];
    McpTasksTool.IdsBelowSnoc(ColumnIds(columns), next);
    assert forall i :: 0 <= i < |columns| ==> (columns + [c])[i] == columns[i];
  }

  class ProjectsDb {
    var projects: seq<Project>
    var columns: seq<Column>
    var nextProjectId: int
    var nextColumnId: int

    /** Serial ids below their counters, and every column belongs to an existing project. */
    ghost predicate Valid()
      reads this
    {
      McpTasksTool.IdsBelow(ProjectIds(projects), nextProjectId)
      && McpTasksTool.IdsBelow(ColumnIds(columns), nextColumnId)
      && ColumnsOwned(projects, columns)
    }

    constructor ()
      ensures Valid() && projects == [] && columns == [] && nextProjectId == 1 && nextColumnId == 1
    {
      projects, columns := [], [];
      nextProjectId, nextColumnId := 1, 1;
    }

    /** The project insert: the new row, or nothing when the store rejects it. */
    method InsertProject(workspaceId: int, name: string, description: Option<string>, workspaceIds: set<int>, now: int)
      returns (r: Option<Project>)
      requires Valid()
      modifies this
      ensures Valid() && columns == old(columns) && nextColumnId == old(nextColumnId)
      ensures ProjectAccepted(workspaceId, name, workspaceIds) ==>
        var p := NewProject(old(nextProjectId), workspaceId, name, description, now);
        r == Some(p) && projects == old(projects) + [p] && nextProjectId == old(nextProjectId) + 1
      ensures !ProjectAccepted(workspaceId, name, workspaceIds) ==>
        r.None? && projects == old(projects) && nextProjectId == old(nextProjectId)
    {
      if !ProjectAccepted(workspaceId, name, workspaceIds) {
        return None;
      }
      var p := NewProject(nextProjectId, workspaceId, name, description, now);
      assert ProjectIds(projects + [p]) == ProjectIds(projects) + [p.id];
      projects := projects + [p];
      nextProjectId := nextProjectId + 1;
      r := Some(p);
    }

    /** The loop `for (let i = 0; i < defaultCols.length; i++) insert(columns)…`. */
    method AddDefaultColumns(projectId: int)
      requires Valid() && projectId in ProjectIds(projects)
      modifies this
      ensures Valid() && projects == old(projects) && nextProjectId == old(nextProjectId)
      ensures columns == old(columns) + DefaultColumns(projectId, old(nextColumnId), 6)
      ensures nextColumnId == old(nextColumnId) + 6
    {
      for i := 0 to |DefaultColumnNames|
        invariant columns == old(columns) + DefaultColumns(projectId, old(nextColumnId), i)
        invariant nextColumnId == old(nextColumnId) + i
        invariant projects == old(projects) && nextProjectId == old(nextProjectId)
        invariant Valid()
      {
        var c := Column(nextColumnId, projectId, DefaultColumnNames[i], i, i == |DefaultColumnNames| - 1, None);
        AppendColumn(projects, columns, nextColumnId, c);
        columns := columns + [c];
        nextColumnId := nextColumnId + 1;
      }
    }

    /**
     * A project with its six default columns, or nothing inserted at all when the store
     * rejects the project row.
     */
    method CreateWithColumns(workspaceId: int, name: string, description: Option<string>, workspaceIds: set<int>, now: int)
      returns (r: Option<Project>)
      requires Valid()
      modifies this
      ensures Valid()
      ensures ProjectAccepted(workspaceId, name, workspaceIds) ==>
        var p := NewProject(old(nextProjectId), workspaceId, name, description, now);
        r == Some(p) && projects == old(projects) + [p] && nextProjectId == old(nextProjectId) + 1
        && columns == old(columns) + DefaultColumns(p.id, old(nextColumnId), 6) && nextColumnId == old(nextColumnId) + 6
      ensures !ProjectAccepted(workspaceId, name, workspaceIds) ==>
        r.None? && projects == old(projects) && columns == old(columns)
        && nextProjectId == old(nextProjectId) && nextColumnId == old(nextColumnId)
    {
      r := InsertProject(workspaceId, name, description, workspaceIds, now);
      if r.Some? {
        assert ProjectIds(projects)[|projects| - 1] == r.value.id;
        AddDefaultColumns(r.value.id);
      }
    }
  }
}
