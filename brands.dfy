/**
  The brands screen: the list of brands sorted by priority, one shared
  draft (`selectedBrand`) for the Add and Edit dialogs, three independent
  dialog flags and the id a Delete click recorded.
 */
module Brands {
  import opened Maybe
  import opened Http
  import opened Sorting
  import opened Screen

  datatype Brand = Brand(id: Option<int>, aws_link: string, display_name: string, priority: int, brand: string)

  function Priority(b: Brand): int { b.priority }

  /** The draft the Add button seeds: no id, empty strings, priority 0. */
  const BlankBrand := Brand(None, "", "", 0, "")

  /** The four inputs of the Add and Edit forms and what each one sends. */
  datatype BrandInput =
    | MainBrandInput(text: string)
    | DisplayNameInput(text: string)
    | PriorityInput(number: int)
    | ImageLinkInput(text: string)

  datatype BrandField = MainBrandField | DisplayNameField | PriorityField | ImageLinkField

  function FieldOf(input: BrandInput): BrandField {
    match input
    case MainBrandInput(_) => MainBrandField
    case DisplayNameInput(_) => DisplayNameField
    case PriorityInput(_) => PriorityField
    case ImageLinkInput(_) => ImageLinkField
  }

  /** The fields in which two brands differ. */
  function Changed(a: Brand, b: Brand): set<BrandField> {
    (if a.brand != b.brand then {MainBrandField} else {})
    + (if a.display_name != b.display_name then {DisplayNameField} else {})
    + (if a.priority != b.priority then {PriorityField} else {})
    + (if a.aws_link != b.aws_link then {ImageLinkField} else {})
  }

  /** The input displays the value it sent. */
  predicate Shows(b: Brand, input: BrandInput) {
    match input
    case MainBrandInput(t) => b.brand == t
    case DisplayNameInput(t) => b.display_name == t
    case PriorityInput(n) => b.priority == n
    case ImageLinkInput(t) => b.aws_link == t
  }

  /** `setSelectedBrand(prev => ({...prev!, field: value}))`. */
  function ApplyInput(b: Brand, input: BrandInput): (r: Brand)
    ensures Shows(r, input)
    ensures Changed(b, r) <= {FieldOf(input)}
    ensures r.id == b.id
  {
    match input
    case MainBrandInput(t) => b.(brand := t)
    case DisplayNameInput(t) => b.(display_name := t)
    case PriorityInput(n) => b.(priority := n)
    case ImageLinkInput(t) => b.(aws_link := t)
  }

  class ManageBrands {
    var brands: seq<Brand>
    var selectedBrand: Option<Brand>
    var isAddDialogOpen: bool
    var isEditDialogOpen: bool
    var isDeleteDialogOpen: bool
    var deleteId: DeleteMark

    function IsOpen(d: Dialog): bool
      reads this
    {
      match d
      case AddDialog => isAddDialogOpen
      case EditDialog => isEditDialogOpen
      case DeleteDialog => isDeleteDialogOpen
    }

    constructor ()
      ensures brands == [] && selectedBrand == None && deleteId == Unmarked
      ensures forall d :: !IsOpen(d)
    {
      brands := [];
      selectedBrand := None;
      isAddDialogOpen := false;
      isEditDialogOpen := false;
      isDeleteDialogOpen := false;
      deleteId := Unmarked;
    }

    /** After a write handler: on success the list is refetched and only
        `own` closes; on failure the list and every flag are as they were.
        The draft and `deleteId` are never touched. */
    twostate predicate AfterWrite(response: Response<()>, refetch: Response<seq<Brand>>, own: Dialog)
      reads this
    {
      && selectedBrand == old(selectedBrand) && deleteId == old(deleteId)
      && (response.Ok? ==>
            && Refreshed(old(brands), refetch, brands, Priority)
            && !IsOpen(own)
            && forall d :: d != own ==> IsOpen(d) == old(IsOpen(d)))
      && (response.Fail? ==> brands == old(brands) && forall d :: IsOpen(d) == old(IsOpen(d)))
    }

    /** `fetchBrands`: GET /brands; on success the list becomes the fetched
        rows sorted in place by priority, on failure it stays. */
    method FetchBrands(response: Response<seq<Brand>>) returns (request: Request<Brand>)
      modifies this
      ensures request == GetAll("brands")
      ensures Refreshed(old(brands), response, brands, Priority)
      ensures selectedBrand == old(selectedBrand) && deleteId == old(deleteId)
      ensures forall d :: IsOpen(d) == old(IsOpen(d))
    {
      request := GetAll("brands");
      if response.Ok? {
        brands := SortByKey(response.payload, Priority);
      }
    }

    /** `handleEdit`: PUT /brands/{brand.id} with the whole brand. */
    method HandleEdit(brand: Brand, response: Response<()>, refetch: Response<seq<Brand>>)
      returns (requests: seq<Request<Brand>>)
      modifies this
      ensures requests == WriteRequests(Request(Put, Member("brands", brand.id), Some(brand)), response, "brands")
      ensures AfterWrite(response, refetch, EditDialog)
    {
      requests := [Request(Put, Member("brands", brand.id), Some(brand))];
      if response.Ok? {
        var refresh := FetchBrands(refetch);
        requests := requests + [refresh];
        isEditDialogOpen := false;
      }
    }

    /** `handleAdd`: POST /brands with the brand. */
    method HandleAdd(brand: Brand, response: Response<()>, refetch: Response<seq<Brand>>)
      returns (requests: seq<Request<Brand>>)
      modifies this
      ensures requests == WriteRequests(Request(Post, Collection("brands"), Some(brand)), response, "brands")
      ensures AfterWrite(response, refetch, AddDialog)
    {
      requests := [Request(Post, Collection("brands"), Some(brand))];
      if response.Ok? {
        var refresh := FetchBrands(refetch);
        requests := requests + [refresh];
        isAddDialogOpen := false;
      }
    }

    /** `handleDelete`: DELETE /brands/{id}. */
    method HandleDelete(id: Option<int>, response: Response<()>, refetch: Response<seq<Brand>>)
      returns (requests: seq<Request<Brand>>)
      modifies this
      ensures requests == WriteRequests(Request(Delete, Member("brands", id), None), response, "brands")
      ensures AfterWrite(response, refetch, DeleteDialog)
    {
      requests := [Request(Delete, Member("brands", id), None)];
      if response.Ok? {
        var refresh := FetchBrands(refetch);
        requests := requests + [refresh];
        isDeleteDialogOpen := false;
      }
    }

    /** A dialog's `onOpenChange`, which its trigger fires with `true` and
        Escape, the overlay or the Cancel button with `false`. */
    method SetDialogOpen(d: Dialog, open: bool)
      modifies this
      ensures IsOpen(d) == open
      ensures forall e :: e != d ==> IsOpen(e) == old(IsOpen(e))
      ensures brands == old(brands) && selectedBrand == old(selectedBrand) && deleteId == old(deleteId)
    {
      match d
      case AddDialog => isAddDialogOpen := open;
      case EditDialog => isEditDialogOpen := open;
      case DeleteDialog => isDeleteDialogOpen := open;
    }

    /** The Add Brand button's `onClick`: seeds the blank draft. */
    method ClickAdd()
      modifies this
      ensures selectedBrand == Some(BlankBrand)
      ensures brands == old(brands) && deleteId == old(deleteId)
      ensures forall d :: IsOpen(d) == old(IsOpen(d))
    {
      selectedBrand := Some(BlankBrand);
    }

    /** A row's Edit button's `onClick`: the draft becomes that row. */
    method ClickEdit(row: Brand)
      modifies this
      ensures selectedBrand == Some(row)
      ensures brands == old(brands) && deleteId == old(deleteId)
      ensures forall d :: IsOpen(d) == old(IsOpen(d))
    {
      selectedBrand := Some(row);
    }

    /** A row's Delete button's `onClick`: records the row's id. */
    method ClickDelete(row: Brand)
      modifies this
      ensures deleteId == Marked(row.id)
      ensures brands == old(brands) && selectedBrand == old(selectedBrand)
      ensures forall d :: IsOpen(d) == old(IsOpen(d))
    {
      deleteId := Marked(row.id);
    }

    /** An input's `onChange`. The inputs sit inside a dialog opened by a
        trigger whose `onClick` seeded the draft, so there is one. */
    method EditDraft(input: BrandInput)
      requires selectedBrand.Some?
      modifies this
      ensures selectedBrand == Some(ApplyInput(old(selectedBrand).value, input))
      ensures brands == old(brands) && deleteId == old(deleteId)
      ensures forall d :: IsOpen(d) == old(IsOpen(d))
    {
      selectedBrand := Some(ApplyInput(selectedBrand.value, input));
    }

    /** The Add form's submit: `handleAdd(selectedBrand)` when there is a draft. */
    method SubmitAdd(response: Response<()>, refetch: Response<seq<Brand>>)
      returns (requests: seq<Request<Brand>>)
      modifies this
      ensures old(selectedBrand).None? ==> requests == [] && unchanged(this)
      ensures old(selectedBrand).Some? ==>
                && requests == WriteRequests(Request(Post, Collection("brands"), old(selectedBrand)), response, "brands")
                && AfterWrite(response, refetch, AddDialog)
    {
      requests := [];
      if selectedBrand.Some? {
        requests := HandleAdd(selectedBrand.value, response, refetch);
      }
    }

    /** The Edit form's submit: `handleEdit(selectedBrand)` when there is a draft. */
    method SubmitEdit(response: Response<()>, refetch: Response<seq<Brand>>)
      returns (requests: seq<Request<Brand>>)
      modifies this
      ensures old(selectedBrand).None? ==> requests == [] && unchanged(this)
      ensures old(selectedBrand).Some? ==>
                && requests == WriteRequests(Request(Put, Member("brands", old(selectedBrand).value.id), old(selectedBrand)), response, "brands")
                && AfterWrite(response, refetch, EditDialog)
    {
      requests := [];
      if selectedBrand.Some? {
        requests := HandleEdit(selectedBrand.value, response, refetch);
      }
    }

    /** Confirm in the delete dialog: deletes only when `deleteId !== null`. */
    method ConfirmDelete(response: Response<()>, refetch: Response<seq<Brand>>)
      returns (requests: seq<Request<Brand>>)
      modifies this
      ensures !NotNull(old(deleteId)) ==> requests == [] && unchanged(this)
      ensures NotNull(old(deleteId)) ==>
                && requests == WriteRequests(Request(Delete, Member("brands", old(deleteId).id), None), response, "brands")
                && AfterWrite(response, refetch, DeleteDialog)
    {
      requests := [];
      if NotNull(deleteId) {
        requests := HandleDelete(deleteId.id, response, refetch);
      }
    }
  }
}
