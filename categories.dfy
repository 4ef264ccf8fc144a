/**
  The categories screen: the list of categories sorted by priority, one shared
  draft (`selectedCategory`) for the Add and Edit dialogs, three independent
  dialog flags and the id a Delete click recorded.
 */
module Categories {
  import opened Maybe
  import opened Http
  import opened Sorting
  import opened Screen

  datatype Category = Category(id: Option<int>, image_link: string, display_name: string, priority: int, main_category: string)

  function Priority(b: Category): int { b.priority }

  /** The draft the Add button seeds: no id, empty strings, priority 0. */
  const BlankCategory := Category(None, "", "", 0, "")

  /** The four inputs of the Add and Edit forms and what each one sends. */
  datatype CategoryInput =
    | MainCategoryInput(text: string)
    | DisplayNameInput(text: string)
    | PriorityInput(number: int)
    | ImageLinkInput(text: string)

  datatype CategoryField = MainCategoryField | DisplayNameField | PriorityField | ImageLinkField

  function FieldOf(input: CategoryInput): CategoryField {
    match input
    case MainCategoryInput(_) => MainCategoryField
    case DisplayNameInput(_) => DisplayNameField
    case PriorityInput(_) => PriorityField
    case ImageLinkInput(_) => ImageLinkField
  }

  /** The fields in which two categories differ. */
  function Changed(a: Category, b: Category): set<CategoryField> {
    (if a.main_category != b.main_category then {MainCategoryField} else {})
    + (if a.display_name != b.display_name then {DisplayNameField} else {})
    + (if a.priority != b.priority then {PriorityField} else {})
    + (if a.image_link != b.image_link then {ImageLinkField} else {})
  }

  /** The input displays the value it sent. */
  predicate Shows(b: Category, input: CategoryInput) {
    match input
    case MainCategoryInput(t) => b.main_category == t
    case DisplayNameInput(t) => b.display_name == t
    case PriorityInput(n) => b.priority == n
    case ImageLinkInput(t) => b.image_link == t
  }

  /** `setSelectedCategory(prev => ({...prev!, field: value}))`. */
  function ApplyInput(b: Category, input: CategoryInput): (r: Category)
    ensures Shows(r, input)
    ensures Changed(b, r) <= {FieldOf(input)}
    ensures r.id == b.id
  {
    match input
    case MainCategoryInput(t) => b.(main_category := t)
    case DisplayNameInput(t) => b.(display_name := t)
    case PriorityInput(n) => b.(priority := n)
    case ImageLinkInput(t) => b.(image_link := t)
  }

  class ManageCategories {
    var categories: seq<Category>
    var selectedCategory: Option<Category>
    var isAddDialogOpen: bool
    var isEditDialogOpen: bool
    var isDeleteDialogOpen: bool
    var deleteId: DeleteMark

    function IsOpen(d: Dialog): bool
      reads this
    {
      match d
      case AddDialog => isAddDialogOpen
      case EditDialog => isEditDialogOpen
      case DeleteDialog => isDeleteDialogOpen
    }

    constructor ()
      ensures categories == [] && selectedCategory == None && deleteId == Unmarked
      ensures forall d :: !IsOpen(d)
    {
      categories := [];
      selectedCategory := None;
      isAddDialogOpen := false;
      isEditDialogOpen := false;
      isDeleteDialogOpen := false;
      deleteId := Unmarked;
    }

    /** After a write handler: on success the list is refetched and only
        `own` closes; on failure the list and every flag are as they were.
        The draft and `deleteId` are never touched. */
    twostate predicate AfterWrite(response: Response<()>, refetch: Response<seq<Category>>, own: Dialog)
      reads this
    {
      && selectedCategory == old(selectedCategory) && deleteId == old(deleteId)
      && (response.Ok? ==>
            && Refreshed(old(categories), refetch, categories, Priority)
            && !IsOpen(own)
            && forall d :: d != own ==> IsOpen(d) == old(IsOpen(d)))
      && (response.Fail? ==> categories == old(categories) && forall d :: IsOpen(d) == old(IsOpen(d)))
    }

    /** `fetchCategories`: GET /categories; on success the list becomes the fetched
        rows sorted in place by priority, on failure it stays. */
    method FetchCategories(response: Response<seq<Category>>) returns (request: Request<Category>)
      modifies this
      ensures request == GetAll("categories")
      ensures Refreshed(old(categories), response, categories, Priority)
      ensures selectedCategory == old(selectedCategory) && deleteId == old(deleteId)
      ensures forall d :: IsOpen(d) == old(IsOpen(d))
    {
      request := GetAll("categories");
      if response.Ok? {
        categories := SortByKey(response.payload, Priority);
      }
    }

    /** `handleEdit`: PUT /categories/{category.id} with the whole category. */
    method HandleEdit(category: Category, response: Response<()>, refetch: Response<seq<Category>>)
      returns (requests: seq<Request<Category>>)
      modifies this
      ensures requests == WriteRequests(Request(Put, Member("categories", category.id), Some(category)), response, "categories")
      ensures AfterWrite(response, refetch, EditDialog)
    {
      requests := [Request(Put, Member("categories", category.id), Some(category))];
      if response.Ok? {
        var refresh := FetchCategories(refetch);
        requests := requests + [refresh];
        isEditDialogOpen := false;
      }
    }

    /** `handleAdd`: POST /categories with the category. */
    method HandleAdd(category: Category, response: Response<()>, refetch: Response<seq<Category>>)
      returns (requests: seq<Request<Category>>)
      modifies this
      ensures requests == WriteRequests(Request(Post, Collection("categories"), Some(category)), response, "categories")
      ensures AfterWrite(response, refetch, AddDialog)
    {
      requests := [Request(Post, Collection("categories"), Some(category))];
      if response.Ok? {
        var refresh := FetchCategories(refetch);
        requests := requests + [refresh];
        isAddDialogOpen := false;
      }
    }

    /** `handleDelete`: DELETE /categories/{id}. */
    method HandleDelete(id: Option<int>, response: Response<()>, refetch: Response<seq<Category>>)
      returns (requests: seq<Request<Category>>)
      modifies this
      ensures requests == WriteRequests(Request(Delete, Member("categories", id), None), response, "categories")
      ensures AfterWrite(response, refetch, DeleteDialog)
    {
      requests := [Request(Delete, Member("categories", id), None)];
      if response.Ok? {
        var refresh := FetchCategories(refetch);
        requests := requests + [refresh];
        isDeleteDialogOpen := false;
      }
    }

    /** A dialog's `onOpenChange`, which its trigger fires with `true` and
        Escape, the overlay or the Cancel button with `false`. */
    method SetDialogOpen(d: Dialog, open: bool)
      modifies this
      ensures IsOpen(d) == open
      ensures forall e :: e != d ==> IsOpen(e) == old(IsOpen(e))
      ensures categories == old(categories) && selectedCategory == old(selectedCategory) && deleteId == old(deleteId)
    {
      match d
      case AddDialog => isAddDialogOpen := open;
      case EditDialog => isEditDialogOpen := open;
      case DeleteDialog => isDeleteDialogOpen := open;
    }

    /** The Add Category button's `onClick`: seeds the blank draft. */
    method ClickAdd()
      modifies this
      ensures selectedCategory == Some(BlankCategory)
      ensures categories == old(categories) && deleteId == old(deleteId)
      ensures forall d :: IsOpen(d) == old(IsOpen(d))
    {
      selectedCategory := Some(BlankCategory);
    }

    /** A row's Edit button's `onClick`: the draft becomes that row. */
    method ClickEdit(row: Category)
      modifies this
      ensures selectedCategory == Some(row)
      ensures categories == old(categories) && deleteId == old(deleteId)
      ensures forall d :: IsOpen(d) == old(IsOpen(d))
    {
      selectedCategory := Some(row);
    }

    /** A row's Delete button's `onClick`: records the row's id. */
    method ClickDelete(row: Category)
      modifies this
      ensures deleteId == Marked(row.id)
      ensures categories == old(categories) && selectedCategory == old(selectedCategory)
      ensures forall d :: IsOpen(d) == old(IsOpen(d))
    {
      deleteId := Marked(row.id);
    }

    /** An input's `onChange`. The inputs sit inside a dialog opened by a
        trigger whose `onClick` seeded the draft, so there is one. */
    method EditDraft(input: CategoryInput)
      requires selectedCategory.Some?
      modifies this
      ensures selectedCategory == Some(ApplyInput(old(selectedCategory).value, input))
      ensures categories == old(categories) && deleteId == old(deleteId)
      ensures forall d :: IsOpen(d) == old(IsOpen(d))
    {
      selectedCategory := Some(ApplyInput(selectedCategory.value, input));
    }

    /** The Add form's submit: `handleAdd(selectedCategory)` when there is a draft. */
    method SubmitAdd(response: Response<()>, refetch: Response<seq<Category>>)
      returns (requests: seq<Request<Category>>)
      modifies this
      ensures old(selectedCategory).None? ==> requests == [] && unchanged(this)
      ensures old(selectedCategory).Some? ==>
                && requests == WriteRequests(Request(Post, Collection("categories"), old(selectedCategory)), response, "categories")
                && AfterWrite(response, refetch, AddDialog)
    {
      requests := [];
      if selectedCategory.Some? {
        requests := HandleAdd(selectedCategory.value, response, refetch);
      }
    }

    /** The Edit form's submit: `handleEdit(selectedCategory)` when there is a draft. */
    method SubmitEdit(response: Response<()>, refetch: Response<seq<Category>>)
      returns (requests: seq<Request<Category>>)
      modifies this
      ensures old(selectedCategory).None? ==> requests == [] && unchanged(this)
      ensures old(selectedCategory).Some? ==>
                && requests == WriteRequests(Request(Put, Member("categories", old(selectedCategory).value.id), old(selectedCategory)), response, "categories")
                && AfterWrite(response, refetch, EditDialog)
    {
      requests := [];
      if selectedCategory.Some? {
        requests := HandleEdit(selectedCategory.value, response, refetch);
      }
    }

    /** Confirm in the delete dialog: deletes only when `deleteId !== null`. */
    method ConfirmDelete(response: Response<()>, refetch: Response<seq<Category>>)
      returns (requests: seq<Request<Category>>)
      modifies this
      ensures !NotNull(old(deleteId)) ==> requests == [] && unchanged(this)
      ensures NotNull(old(deleteId)) ==>
                && requests == WriteRequests(Request(Delete, Member("categories", old(deleteId).id), None), response, "categories")
                && AfterWrite(response, refetch, DeleteDialog)
    {
      requests := [];
      if NotNull(deleteId) {
        requests := HandleDelete(deleteId.id, response, refetch);
      }
    }
  }
}
