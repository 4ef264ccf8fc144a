/**
  The clients screen: the list sorted by priority, a separate `newClient`
  draft for the Add dialog, a `selectedClient` draft for the Edit dialog,
  three independent dialog flags and `deleteId`.
 */
module Clients {
  import opened Maybe
  import opened Http
  import opened Sorting
  import opened Screen

  datatype Client = Client(id: Option<int>, link: string, name: string, priority: int)

  function Priority(c: Client): int { c.priority }

  /** The initial Add draft: no id, empty name and link, priority 1. */
  const BlankClient := Client(None, "", "", 1)

  datatype ClientInput =
    | NameInput(text: string)
    | PriorityInput(number: int)
    | ImageLinkInput(text: string)

  datatype ClientField = NameField | PriorityField | ImageLinkField

  function FieldOf(input: ClientInput): ClientField {
    match input
    case NameInput(_) => NameField
    case PriorityInput(_) => PriorityField
    case ImageLinkInput(_) => ImageLinkField
  }

  /** The fields in which two clients differ. */
  function Changed(a: Client, b: Client): set<ClientField> {
    (if a.name != b.name then {NameField} else {})
    + (if a.priority != b.priority then {PriorityField} else {})
    + (if a.link != b.link then {ImageLinkField} else {})
  }

  /** The input displays the value it sent. */
  predicate Shows(c: Client, input: ClientInput) {
    match input
    case NameInput(t) => c.name == t
    case PriorityInput(n) => c.priority == n
    case ImageLinkInput(t) => c.link == t
  }

  /** `{ ...draft, field: value }`. */
  function ApplyInput(c: Client, input: ClientInput): (r: Client)
    ensures Shows(r, input)
    ensures Changed(c, r) <= {FieldOf(input)}
    ensures r.id == c.id
  {
    match input
    case NameInput(t) => c.(name := t)
    case PriorityInput(n) => c.(priority := n)
    case ImageLinkInput(t) => c.(link := t)
  }

  class ManageClients {
    var clients: seq<Client>
    var isEditDialogOpen: bool
    var isDeleteDialogOpen: bool
    var deleteId: DeleteMark
    var selectedClient: Option<Client>
    var isAddDialogOpen: bool
    var newClient: Client

    function IsOpen(d: Dialog): bool
      reads this
    {
      match d
      case AddDialog => isAddDialogOpen
      case EditDialog => isEditDialogOpen
      case DeleteDialog => isDeleteDialogOpen
    }

    constructor ()
      ensures clients == [] && selectedClient == None && deleteId == Unmarked
      ensures newClient == BlankClient
      ensures forall d :: !IsOpen(d)
    {
      clients := [];
      isEditDialogOpen := false;
      isDeleteDialogOpen := false;
      deleteId := Unmarked;
      selectedClient := None;
      isAddDialogOpen := false;
      newClient := BlankClient;
    }

    /** After a write handler: on success the list is refetched and only
        `own` closes; on failure the list and every flag are as they were.
        Neither draft nor `deleteId` is touched. */
    twostate predicate AfterWrite(response: Response<()>, refetch: Response<seq<Client>>, own: Dialog)
      reads this
    {
      && selectedClient == old(selectedClient) && newClient == old(newClient)
      && deleteId == old(deleteId)
      && (response.Ok? ==>
            && Refreshed(old(clients), refetch, clients, Priority)
            && !IsOpen(own)
            && forall d :: d != own ==> IsOpen(d) == old(IsOpen(d)))
      && (response.Fail? ==> clients == old(clients) && forall d :: IsOpen(d) == old(IsOpen(d)))
    }

    /** `fetchClients`: GET /clients, then the sort by priority. */
    method FetchClients(response: Response<seq<Client>>) returns (request: Request<Client>)
      modifies this
      ensures request == GetAll("clients")
      ensures Refreshed(old(clients), response, clients, Priority)
      ensures selectedClient == old(selectedClient) && newClient == old(newClient)
      ensures deleteId == old(deleteId)
      ensures forall d :: IsOpen(d) == old(IsOpen(d))
    {
      request := GetAll("clients");
      if response.Ok? {
        clients := SortByKey(response.payload, Priority);
      }
    }

    /** `handleAddClient`: POST /clients with `newClient`, which stays as
        it was after a success. */
    method HandleAddClient(response: Response<()>, refetch: Response<seq<Client>>)
      returns (requests: seq<Request<Client>>)
      modifies this
      ensures requests == WriteRequests(Request(Post, Collection("clients"), Some(old(newClient))), response, "clients")
      ensures AfterWrite(response, refetch, AddDialog)
    {
      requests := [Request(Post, Collection("clients"), Some(newClient))];
      if response.Ok? {
        isAddDialogOpen := false;
        var refresh := FetchClients(refetch);
        requests := requests + [refresh];
      }
    }

    /** `handleEditClient`: nothing without a selection, otherwise
        PUT /clients/{id} with the selection. */
    method HandleEditClient(response: Response<()>, refetch: Response<seq<Client>>)
      returns (requests: seq<Request<Client>>)
      modifies this
      ensures old(selectedClient).None? ==> requests == [] && unchanged(this)
      ensures old(selectedClient).Some? ==>
                && requests == WriteRequests(
                     Request(Put, Member("clients", old(selectedClient).value.id), old(selectedClient)),
                     response, "clients")
                && AfterWrite(response, refetch, EditDialog)
    {
      requests := [];
      if selectedClient.None? {
        return;
      }
      requests := [Request(Put, Member("clients", selectedClient.value.id), selectedClient)];
      if response.Ok? {
        isEditDialogOpen := false;
        var refresh := FetchClients(refetch);
        requests := requests + [refresh];
      }
    }

    /** `handleDeleteClient`: nothing while `deleteId` is falsy, otherwise
        DELETE /clients/{deleteId}. */
    method HandleDeleteClient(response: Response<()>, refetch: Response<seq<Client>>)
      returns (requests: seq<Request<Client>>)
      modifies this
      ensures !Truthy(old(deleteId)) ==> requests == [] && unchanged(this)
      ensures Truthy(old(deleteId)) ==>
                && requests == WriteRequests(Request(Delete, Member("clients", old(deleteId).id), None), response, "clients")
                && AfterWrite(response, refetch, DeleteDialog)
    {
      requests := [];
      if !Truthy(deleteId) {
        return;
      }
      requests := [Request(Delete, Member("clients", deleteId.id), None)];
      if response.Ok? {
        isDeleteDialogOpen := false;
        var refresh := FetchClients(refetch);
        requests := requests + [refresh];
      }
    }

    /** A dialog's `onOpenChange`, the Add button (`true`) and the Cancel
        buttons (`false`). */
    method SetDialogOpen(d: Dialog, open: bool)
      modifies this
      ensures IsOpen(d) == open
      ensures forall e :: e != d ==> IsOpen(e) == old(IsOpen(e))
      ensures clients == old(clients) && deleteId == old(deleteId)
      ensures selectedClient == old(selectedClient) && newClient == old(newClient)
    {
      match d
      case AddDialog => isAddDialogOpen := open;
      case EditDialog => isEditDialogOpen := open;
      case DeleteDialog => isDeleteDialogOpen := open;
    }

    /** A row's Edit button: a copy of the row becomes the selection and the
        edit dialog opens. */
    method ClickEdit(row: Client)
      modifies this
      ensures selectedClient == Some(row) && isEditDialogOpen
      ensures isAddDialogOpen == old(isAddDialogOpen) && isDeleteDialogOpen == old(isDeleteDialogOpen)
      ensures clients == old(clients) && deleteId == old(deleteId) && newClient == old(newClient)
    {
      selectedClient := Some(row);
      isEditDialogOpen := true;
    }

    /** A row's Delete button's `onClick`: records the row's id and nothing
        else; the dialog opens through its trigger's `onOpenChange`. */
    method ClickDelete(row: Client)
      modifies this
      ensures deleteId == Marked(row.id)
      ensures forall d :: IsOpen(d) == old(IsOpen(d))
      ensures clients == old(clients)
      ensures selectedClient == old(selectedClient) && newClient == old(newClient)
    {
      deleteId := Marked(row.id);
    }

    /** An input of the Add dialog: `setNewClient({ ...newClient, field: value })`. */
    method EditNew(input: ClientInput)
      modifies this
      ensures newClient == ApplyInput(old(newClient), input)
      ensures clients == old(clients) && deleteId == old(deleteId)
      ensures selectedClient == old(selectedClient)
      ensures forall d :: IsOpen(d) == old(IsOpen(d))
    {
      newClient := ApplyInput(newClient, input);
    }

    /** An input of the Edit dialog, which only an Edit click opens, so
        there is a selection. */
    method EditSelected(input: ClientInput)
      requires selectedClient.Some?
      modifies this
      ensures selectedClient == Some(ApplyInput(old(selectedClient).value, input))
      ensures clients == old(clients) && deleteId == old(deleteId)
      ensures newClient == old(newClient)
      ensures forall d :: IsOpen(d) == old(IsOpen(d))
    {
      selectedClient := Some(ApplyInput(selectedClient.value, input));
    }
  }
}
