/**
  The sub-categories screen: the list sorted by priority, a separate
  `newSubcategory` draft for the Add dialog, a `selectedSubcategory` draft
  for the Edit dialog, three independent dialog flags and `deleteId`.
 */
module Subcategories {
  import opened Maybe
  import opened Http
  import opened Sorting
  import opened Screen

  datatype Subcategory = Subcategory(id: Option<int>, link: string, display_name: string, priority: int, subcat: string)

  function Priority(s: Subcategory): int { s.priority }

  /** The initial Add draft: no id, empty strings, priority 0. */
  const BlankSubcategory := Subcategory(None, "", "", 0, "")

  datatype SubcategoryInput =
    | SubcatInput(text: string)
    | DisplayNameInput(text: string)
    | PriorityInput(number: int)
    | ImageLinkInput(text: string)

  datatype SubcategoryField = SubcatField | DisplayNameField | PriorityField | ImageLinkField

  function FieldOf(input: SubcategoryInput): SubcategoryField {
    match input
    case SubcatInput(_) => SubcatField
    case DisplayNameInput(_) => DisplayNameField
    case PriorityInput(_) => PriorityField
    case ImageLinkInput(_) => ImageLinkField
  }

  /** The fields in which two sub-categories differ. */
  function Changed(a: Subcategory, b: Subcategory): set<SubcategoryField> {
    (if a.subcat != b.subcat then {SubcatField} else {})
    + (if a.display_name != b.display_name then {DisplayNameField} else {})
    + (if a.priority != b.priority then {PriorityField} else {})
    + (if a.link != b.link then {ImageLinkField} else {})
  }

  /** The input displays the value it sent. */
  predicate Shows(s: Subcategory, input: SubcategoryInput) {
    match input
    case SubcatInput(t) => s.subcat == t
    case DisplayNameInput(t) => s.display_name == t
    case PriorityInput(n) => s.priority == n
    case ImageLinkInput(t) => s.link == t
  }

  /** `{ ...draft, field: value }`. */
  function ApplyInput(s: Subcategory, input: SubcategoryInput): (r: Subcategory)
    ensures Shows(r, input)
    ensures Changed(s, r) <= {FieldOf(input)}
    ensures r.id == s.id
  {
    match input
    case SubcatInput(t) => s.(subcat := t)
    case DisplayNameInput(t) => s.(display_name := t)
    case PriorityInput(n) => s.(priority := n)
    case ImageLinkInput(t) => s.(link := t)
  }

  class ManageSubcategories {
    var subcategories: seq<Subcategory>
    var isAddDialogOpen: bool
    var isEditDialogOpen: bool
    var isDeleteDialogOpen: bool
    var deleteId: DeleteMark
    var selectedSubcategory: Option<Subcategory>
    var newSubcategory: Subcategory

    function IsOpen(d: Dialog): bool
      reads this
    {
      match d
      case AddDialog => isAddDialogOpen
      case EditDialog => isEditDialogOpen
      case DeleteDialog => isDeleteDialogOpen
    }

    constructor ()
      ensures subcategories == [] && selectedSubcategory == None && deleteId == Unmarked
      ensures newSubcategory == BlankSubcategory
      ensures forall d :: !IsOpen(d)
    {
      subcategories := [];
      isAddDialogOpen := false;
      isEditDialogOpen := false;
      isDeleteDialogOpen := false;
      deleteId := Unmarked;
      selectedSubcategory := None;
      newSubcategory := BlankSubcategory;
    }

    /** After a write handler: on success the list is refetched and only
        `own` closes; on failure the list and every flag are as they were.
        Neither draft nor `deleteId` is touched. */
    twostate predicate AfterWrite(response: Response<()>, refetch: Response<seq<Subcategory>>, own: Dialog)
      reads this
    {
      && selectedSubcategory == old(selectedSubcategory) && newSubcategory == old(newSubcategory)
      && deleteId == old(deleteId)
      && (response.Ok? ==>
            && Refreshed(old(subcategories), refetch, subcategories, Priority)
            && !IsOpen(own)
            && forall d :: d != own ==> IsOpen(d) == old(IsOpen(d)))
      && (response.Fail? ==> subcategories == old(subcategories) && forall d :: IsOpen(d) == old(IsOpen(d)))
    }

    /** `fetchSubcategories`: GET /subcategories, then the sort by priority. */
    method FetchSubcategories(response: Response<seq<Subcategory>>) returns (request: Request<Subcategory>)
      modifies this
      ensures request == GetAll("subcategories")
      ensures Refreshed(old(subcategories), response, subcategories, Priority)
      ensures selectedSubcategory == old(selectedSubcategory) && newSubcategory == old(newSubcategory)
      ensures deleteId == old(deleteId)
      ensures forall d :: IsOpen(d) == old(IsOpen(d))
    {
      request := GetAll("subcategories");
      if response.Ok? {
        subcategories := SortByKey(response.payload, Priority);
      }
    }

    /** `handleAddSubcategory`: POST /subcategories with `newSubcategory`,
        which stays as it was after a success. */
    method HandleAddSubcategory(response: Response<()>, refetch: Response<seq<Subcategory>>)
      returns (requests: seq<Request<Subcategory>>)
      modifies this
      ensures requests == WriteRequests(Request(Post, Collection("subcategories"), Some(old(newSubcategory))), response, "subcategories")
      ensures AfterWrite(response, refetch, AddDialog)
    {
      requests := [Request(Post, Collection("subcategories"), Some(newSubcategory))];
      if response.Ok? {
        isAddDialogOpen := false;
        var refresh := FetchSubcategories(refetch);
        requests := requests + [refresh];
      }
    }

    /** `handleEditSubcategory`: nothing without a selection, otherwise
        PUT /subcategories/{id} with the selection. */
    method HandleEditSubcategory(response: Response<()>, refetch: Response<seq<Subcategory>>)
      returns (requests: seq<Request<Subcategory>>)
      modifies this
      ensures old(selectedSubcategory).None? ==> requests == [] && unchanged(this)
      ensures old(selectedSubcategory).Some? ==>
                && requests == WriteRequests(
                     Request(Put, Member("subcategories", old(selectedSubcategory).value.id), old(selectedSubcategory)),
                     response, "subcategories")
                && AfterWrite(response, refetch, EditDialog)
    {
      requests := [];
      if selectedSubcategory.None? {
        return;
      }
      requests := [Request(Put, Member("subcategories", selectedSubcategory.value.id), selectedSubcategory)];
      if response.Ok? {
        isEditDialogOpen := false;
        var refresh := FetchSubcategories(refetch);
        requests := requests + [refresh];
      }
    }

    /** `handleDeleteSubcategory`: nothing while `deleteId` is falsy,
        otherwise DELETE /subcategories/{deleteId}. */
    method HandleDeleteSubcategory(response: Response<()>, refetch: Response<seq<Subcategory>>)
      returns (requests: seq<Request<Subcategory>>)
      modifies this
      ensures !Truthy(old(deleteId)) ==> requests == [] && unchanged(this)
      ensures Truthy(old(deleteId)) ==>
                && requests == WriteRequests(Request(Delete, Member("subcategories", old(deleteId).id), None), response, "subcategories")
                && AfterWrite(response, refetch, DeleteDialog)
    {
      requests := [];
      if !Truthy(deleteId) {
        return;
      }
      requests := [Request(Delete, Member("subcategories", deleteId.id), None)];
      if response.Ok? {
        isDeleteDialogOpen := false;
        var refresh := FetchSubcategories(refetch);
        requests := requests + [refresh];
      }
    }

    /** A dialog's `onOpenChange`, and the Cancel button (`false`). */
    method SetDialogOpen(d: Dialog, open: bool)
      modifies this
      ensures IsOpen(d) == open
      ensures forall e :: e != d ==> IsOpen(e) == old(IsOpen(e))
      ensures subcategories == old(subcategories) && deleteId == old(deleteId)
      ensures selectedSubcategory == old(selectedSubcategory) && newSubcategory == old(newSubcategory)
    {
      match d
      case AddDialog => isAddDialogOpen := open;
      case EditDialog => isEditDialogOpen := open;
      case DeleteDialog => isDeleteDialogOpen := open;
    }

    /** A row's Edit button: a copy of the row becomes the selection and the
        edit dialog opens. */
    method ClickEdit(row: Subcategory)
      modifies this
      ensures selectedSubcategory == Some(row) && isEditDialogOpen
      ensures isAddDialogOpen == old(isAddDialogOpen) && isDeleteDialogOpen == old(isDeleteDialogOpen)
      ensures subcategories == old(subcategories) && deleteId == old(deleteId) && newSubcategory == old(newSubcategory)
    {
      selectedSubcategory := Some(row);
      isEditDialogOpen := true;
    }

    /** A row's Delete button: records the row's id and opens the delete dialog. */
    method ClickDelete(row: Subcategory)
      modifies this
      ensures deleteId == Marked(row.id) && isDeleteDialogOpen
      ensures isAddDialogOpen == old(isAddDialogOpen) && isEditDialogOpen == old(isEditDialogOpen)
      ensures subcategories == old(subcategories)
      ensures selectedSubcategory == old(selectedSubcategory) && newSubcategory == old(newSubcategory)
    {
      deleteId := Marked(row.id);
      isDeleteDialogOpen := true;
    }

    /** An input of the Add dialog: `setNewSubcategory({ ...newSubcategory, field: value })`. */
    method EditNew(input: SubcategoryInput)
      modifies this
      ensures newSubcategory == ApplyInput(old(newSubcategory), input)
      ensures subcategories == old(subcategories) && deleteId == old(deleteId)
      ensures selectedSubcategory == old(selectedSubcategory)
      ensures forall d :: IsOpen(d) == old(IsOpen(d))
    {
      newSubcategory := ApplyInput(newSubcategory, input);
    }

    /** An input of the Edit dialog, which only an Edit click opens, so
        there is a selection. */
    method EditSelected(input: SubcategoryInput)
      requires selectedSubcategory.Some?
      modifies this
      ensures selectedSubcategory == Some(ApplyInput(old(selectedSubcategory).value, input))
      ensures subcategories == old(subcategories) && deleteId == old(deleteId)
      ensures newSubcategory == old(newSubcategory)
      ensures forall d :: IsOpen(d) == old(IsOpen(d))
    {
      selectedSubcategory := Some(ApplyInput(selectedSubcategory.value, input));
    }
  }
}
