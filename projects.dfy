/**
  The projects screen: the list sorted by id, edited in place row by row,
  saved one row at a time, and deleted through a confirmation dialog.
 */
module Projects {
  import opened Maybe
  import opened Http
  import opened Sorting
  import opened Screen
  import opened ProjectRecord

  /** A project as the list holds it: the optional id and the five fields. */
  datatype Project = Project(id: Option<int>, details: ProjectDetails)

  /** The comparator's key `(p.id || 0)`: a missing id (and the falsy 0)
      sorts as 0. */
  function IdOrZero(p: Project): int { p.id.GetOr(0) }

  /** The `prev.map(...)` of an inline edit: every row whose id is `===` to
      `id` gets `f := v`. */
  function EditRows(rows: seq<Project>, id: Option<int>, f: ProjectField, v: string): (r: seq<Project>)
    ensures |r| == |rows|
    ensures forall i :: 0 <= i < |rows| && rows[i].id != id ==> r[i] == rows[i]
    ensures forall i :: 0 <= i < |rows| && rows[i].id == id ==>
              && r[i].id == id
              && Value(r[i].details, f) == v
              && forall g :: g != f ==> Value(r[i].details, g) == Value(rows[i].details, g)
  {
    if rows == [] then []
    else
      var p := rows[0];
      var head := if p.id == id then p.(details := Set(p.details, f, v)) else p;
      [head] + EditRows(rows[1..], id, f, v)
  }

  /** No two rows share an id. */
  predicate DistinctIds(rows: seq<Project>) {
    forall i, j :: 0 <= i < j < |rows| ==> rows[i].id != rows[j].id
  }

  /** With distinct ids, an edit through row `k` changes that row only, and
      in that row only field `f`. */
  lemma EditChangesOneRow(rows: seq<Project>, k: int, f: ProjectField, v: string)
    requires DistinctIds(rows) && 0 <= k < |rows|
    ensures forall i :: 0 <= i < |rows| && i != k ==> EditRows(rows, rows[k].id, f, v)[i] == rows[i]
    ensures EditRows(rows, rows[k].id, f, v)[k] == rows[k].(details := Set(rows[k].details, f, v))
  {
    var r := EditRows(rows, rows[k].id, f, v);
    FieldsDetermine(r[k].details, Set(rows[k].details, f, v));
    forall i | 0 <= i < |rows| && i != k ensures r[i] == rows[i] {
      if i < k {
        assert rows[i].id != rows[k].id;
      } else {
        assert rows[k].id != rows[i].id;
      }
    }
  }

  /** `===` on two `undefined` ids holds, so an edit typed into a row
      without an id reaches every row without an id. */
  lemma MissingIdsEditTogether(rows: seq<Project>, f: ProjectField, v: string, i: int, j: int)
    requires 0 <= i < |rows| && 0 <= j < |rows| && rows[i].id == None && rows[j].id == None
    ensures Value(EditRows(rows, rows[i].id, f, v)[j].details, f) == v
  {
  }

  class ManageProjects {
    var projects: seq<Project>
    var deleteId: DeleteMark
    var isDeleteDialogOpen: bool

    constructor ()
      ensures projects == [] && deleteId == Unmarked && !isDeleteDialogOpen
    {
      projects := [];
      deleteId := Unmarked;
      isDeleteDialogOpen := false;
    }

    /** `fetchProjects`: GET /projects, then the sort by `(id || 0)`. */
    method FetchProjects(response: Response<seq<Project>>) returns (request: Request<Project>)
      modifies this
      ensures request == GetAll("projects")
      ensures Refreshed(old(projects), response, projects, IdOrZero)
      ensures deleteId == old(deleteId) && isDeleteDialogOpen == old(isDeleteDialogOpen)
    {
      request := GetAll("projects");
      if response.Ok? {
        projects := SortByKey(response.payload, IdOrZero);
      }
    }

    /** An inline input of the row `row` (the row the table rendered). */
    method EditField(row: Project, f: ProjectField, v: string)
      modifies this
      ensures projects == EditRows(old(projects), row.id, f, v)
      ensures deleteId == old(deleteId) && isDeleteDialogOpen == old(isDeleteDialogOpen)
    {
      projects := EditRows(projects, row.id, f, v);
    }

    /** A row's Save button, `handleUpdate(project)`: PUT /projects/{id}
        with the row; a refetch on success, nothing else either way. */
    method HandleUpdate(project: Project, response: Response<()>, refetch: Response<seq<Project>>)
      returns (requests: seq<Request<Project>>)
      modifies this
      ensures requests == WriteRequests(Request(Put, Member("projects", project.id), Some(project)), response, "projects")
      ensures response.Ok? ==> Refreshed(old(projects), refetch, projects, IdOrZero)
      ensures response.Fail? ==> projects == old(projects)
      ensures deleteId == old(deleteId) && isDeleteDialogOpen == old(isDeleteDialogOpen)
    {
      requests := [Request(Put, Member("projects", project.id), Some(project))];
      if response.Ok? {
        var refresh := FetchProjects(refetch);
        requests := requests + [refresh];
      }
    }

    /** Confirm, `handleDelete`: nothing while `deleteId` is falsy,
        otherwise DELETE /projects/{deleteId}; success closes the dialog and
        refetches. */
    method HandleDelete(response: Response<()>, refetch: Response<seq<Project>>)
      returns (requests: seq<Request<Project>>)
      modifies this
      ensures !Truthy(old(deleteId)) ==> requests == [] && unchanged(this)
      ensures Truthy(old(deleteId)) ==>
                && requests == WriteRequests(Request(Delete, Member("projects", old(deleteId).id), None), response, "projects")
                && deleteId == old(deleteId)
                && (response.Ok? ==> Refreshed(old(projects), refetch, projects, IdOrZero) && !isDeleteDialogOpen)
                && (response.Fail? ==> projects == old(projects) && isDeleteDialogOpen == old(isDeleteDialogOpen))
    {
      requests := [];
      if !Truthy(deleteId) {
        return;
      }
      requests := [Request(Delete, Member("projects", deleteId.id), None)];
      if response.Ok? {
        isDeleteDialogOpen := false;
        var refresh := FetchProjects(refetch);
        requests := requests + [refresh];
      }
    }

    /** A row's Delete button's `onClick`: records the row's id. */
    method ClickDelete(row: Project)
      modifies this
      ensures deleteId == Marked(row.id)
      ensures projects == old(projects) && isDeleteDialogOpen == old(isDeleteDialogOpen)
    {
      deleteId := Marked(row.id);
    }

    /** The delete dialog's `onOpenChange`, and its Cancel button (`false`). */
    method SetDeleteDialogOpen(open: bool)
      modifies this
      ensures isDeleteDialogOpen == open
      ensures projects == old(projects) && deleteId == old(deleteId)
    {
      isDeleteDialogOpen := open;
    }
  }
}
