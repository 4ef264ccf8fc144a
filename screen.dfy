/**
  What the list screens have in common: the three independent dialog
  flags of brands, categories, sub-categories and clients (projects has
  only the delete flag), the `deleteId` state and its two guards, and the
  requests a write handler issues.
 */
module Screen {
  import opened Maybe
  import opened Http

  datatype Dialog = AddDialog | EditDialog | DeleteDialog

  /** The `deleteId` state: `null` until a Delete button is clicked, then
      whatever `setDeleteId(row.id!)` stored. The `!` is erased at run time,
      so a row without an id stores `undefined`, here `Marked(None)`. */
  datatype DeleteMark = Unmarked | Marked(id: Option<int>)

  /** `deleteId !== null` (brands, categories). */
  predicate NotNull(m: DeleteMark) {
    m.Marked?
  }

  /** `deleteId` is truthy, the negation of `!deleteId` (sub-categories,
      clients, projects): `null`, `undefined` and `0` are all falsy. */
  predicate Truthy(m: DeleteMark) {
    m.Marked? && m.id.Some? && m.id.value != 0
  }

  /** The truthiness guard is strictly stronger than the null check: it
      admits only marks the null check admits, and the two part exactly on
      a stored `0` or `undefined`. */
  lemma TruthyIsStricter(m: DeleteMark)
    ensures Truthy(m) ==> NotNull(m)
    ensures NotNull(m) && !Truthy(m) <==> m == Marked(Some(0)) || m == Marked(None)
  {
  }

  /** The requests a write handler issues: its own request and, when that
      succeeded, the refetch of the whole list. */
  function WriteRequests<B>(write: Request<B>, response: Response<()>, resource: string): (r: seq<Request<B>>)
    ensures |r| >= 1 && r[0] == write
    ensures response.Ok? <==> |r| == 2
    ensures |r| == 2 ==> r[1] == Request(Get, Collection(resource), None)
  {
    if response.Ok? then [write, GetAll(resource)] else [write]
  }
}
