/**
  The add-project page: one draft of five text fields, posted whole and
  cleared after a success.
 */
module AddProject {
  import opened Maybe
  import opened Http
  import opened ProjectRecord

  class AddProjectPage {
    var project: ProjectDetails

    constructor ()
      ensures forall f :: Value(project, f) == ""
    {
      project := BlankDetails;
    }

    /** An input's `onChange`: `setProject(prev => ({ ...prev, field: value }))`. */
    method EditField(f: ProjectField, v: string)
      modifies this
      ensures project == Set(old(project), f, v)
    {
      project := Set(project, f, v);
    }

    /** Save Project, `handleSubmit`: POST /projects with the whole draft;
        on success every field is `""` again, on failure the draft stays. */
    method HandleSubmit(response: Response<()>) returns (request: Request<ProjectDetails>)
      modifies this
      ensures request == Request(Post, Collection("projects"), Some(old(project)))
      ensures response.Ok? ==> forall f :: Value(project, f) == ""
      ensures response.Fail? ==> project == old(project)
    {
      request := Request(Post, Collection("projects"), Some(project));
      if response.Ok? {
        project := BlankDetails;
      }
    }
  }
}
