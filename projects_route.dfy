/**
 * The REST route `/api/v1/projects`: GET lists every project by last update, POST validates
 * the body and creates the project with its six default columns.
 */
module ProjectsRoute {
  import opened Wrappers
  import opened Projects
  import McpTasksTool

  /** The body fields POST reads; an absent field is `undefined`. */
  datatype PostBody = PostBody(name: Option<string>, description: Option<string>, workspaceId: Option<int>)

  /**
   * 400 with `{ error }` for a missing name or workspace, 500 for a store error the handler
   * does not catch, 201 with the project.
   */
  datatype PostResponse = BadRequest(error: string) | ServerError | Created(project: Project)

  const Required: string := "name and workspaceId required"

  /** `!name || !workspaceId`: 400 exactly when one of them is falsy. */
  predicate Rejected(b: PostBody) {
    !McpTasksTool.TruthyString(b.name) || !McpTasksTool.TruthyInt(b.workspaceId)
  }

  /** GET: the whole table, least recently updated first. */
  function Get(projects: seq<Project>): (r: seq<Project>)
    ensures multiset(r) == multiset(projects)
    ensures forall i, j :: 0 <= i < j < |r| ==> r[i].updatedAt <= r[j].updatedAt
  {
    ListProjectsContract(projects, None);
    ListAllIsPermutation(projects);
    ListProjects(projects, None)
  }

  /** POST. */
  method Post(db: ProjectsDb, b: PostBody, workspaceIds: set<int>, now: int) returns (r: PostResponse)
    requires db.Valid()
    modifies db
    ensures db.Valid()
    ensures Rejected(b) ==> r == BadRequest(Required) && unchanged(db)
    ensures !Rejected(b) && !ProjectAccepted(b.workspaceId.value, b.name.value, workspaceIds) ==>
      r == ServerError && db.projects == old(db.projects) && db.columns == old(db.columns)
    ensures !Rejected(b) && ProjectAccepted(b.workspaceId.value, b.name.value, workspaceIds) ==>
      var p := NewProject(old(db.nextProjectId), b.workspaceId.value, b.name.value, b.description, now);
      r == Created(p) && db.projects == old(db.projects) + [p]
      && db.columns == old(db.columns) + DefaultColumns(p.id, old(db.nextColumnId), 6)
  {
    if Rejected(b) {
      return BadRequest(Required);
    }
    var p := db.CreateWithColumns(b.workspaceId.value, b.name.value, b.description, workspaceIds, now);
    r := if p.Some? then Created(p.value) else ServerError;
  }
}
