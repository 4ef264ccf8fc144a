/**
  The products page: one page of fifteen products at a time, the loading
  flag that hides the table and disables the buttons, and the Previous and
  Next buttons that move the offset and so trigger the next fetch.
 */
module ProductsPage {
  import opened Maybe
  import opened Http
  import opened ProductRecord
  import opened ProductService

  /** The page size the page passes as `limit`. */
  const Limit := 15

  /** Previous's updater `prev => Math.max(prev - limit, 0)`. */
  function PreviousOffset(prev: int): (r: int)
    ensures r >= 0
    ensures prev % Limit == 0 && prev > 0 ==> r == prev - Limit && r % Limit == 0
    ensures prev <= 0 ==> r == 0
  {
    Max(prev - Limit, 0)
  }

  /** Next's updater `prev => prev + limit`. */
  function NextOffset(prev: int): (r: int)
    ensures r == prev + Limit
    ensures r > prev && (prev % Limit == 0 ==> r % Limit == 0)
  {
    prev + Limit
  }

  /** The heading above the table. */
  datatype Heading = LoadingProducts | Showing(from: int, to: int)

  /** The request `getData(limit, offset)` sends. */
  function PageRequest(offset: int): Request<ProductResponse> {
    Request(Get, Paged("products", Limit, offset), None)
  }

  /** What a successful page fetch puts on screen, against the backend's
      table: at most `Limit` rows, none at all exactly when the offset has
      run past the table (the heading then reads `offset+1`–`offset`), and
      the `i`-th shown row has exactly `offset + i` smaller ids in the
      table. */
  lemma PageAgainstTable(t: ProductTable, offset: int, page: seq<ProductResponse>)
    requires offset >= 0 && t.GetAllProducts(Some(Limit), Some(offset)) == Success(page)
    ensures |page| <= Limit
    ensures page == [] <==> offset >= |t.rows|
    ensures page != [] ==> offset + |page| <= |t.rows|
    ensures forall i :: 0 <= i < |page| ==> Rank(t.rows.Keys, page[i].id) == offset + i
  {
    assert |t.rows.Keys| == |t.rows|;
  }

  class ProductList {
    var data: seq<ProductResponse>
    var loading: bool
    var offset: int

    /** The offset is a non-negative multiple of the page size. */
    ghost predicate Valid()
      reads this
    {
      offset >= 0 && offset % Limit == 0
    }

    /** The initial state; the mount effect then starts the first fetch. */
    constructor ()
      ensures Valid() && data == [] && loading && offset == 0
    {
      data := [];
      loading := true;
      offset := 0;
    }

    /** `disabled={offset === 0 || loading}`. */
    function PreviousDisabled(): bool
      reads this
    {
      offset == 0 || loading
    }

    /** `disabled={loading}`. */
    function NextDisabled(): bool
      reads this
    {
      loading
    }

    /** The heading: `Loading Products...` while loading, else
        `Showing {offset+1}–{offset+data.length} Products`. */
    function CurrentHeading(): (h: Heading)
      reads this
      ensures h.LoadingProducts? <==> loading
      ensures h.Showing? ==> h.from == offset + 1 && h.to - h.from + 1 == |data|
    {
      if loading then LoadingProducts else Showing(offset + 1, offset + |data|)
    }

    /** The first half of `fetchData`: `setLoading(true)` and the GET for
        the current offset. */
    method BeginFetch() returns (request: Request<ProductResponse>)
      modifies this
      ensures request == PageRequest(offset)
      ensures loading && data == old(data) && offset == old(offset)
    {
      loading := true;
      request := PageRequest(offset);
    }

    /** The second half of `fetchData`: the awaited outcome replaces the
        rows on success, a failure keeps them, and loading ends either way. */
    method EndFetch(response: Response<seq<ProductResponse>>)
      modifies this
      ensures !loading && offset == old(offset)
      ensures response.Ok? ==> data == response.payload
      ensures response.Fail? ==> data == old(data)
    {
      if response.Ok? {
        data := response.payload;
      }
      loading := false;
    }

    /** Previous: nothing while disabled; otherwise back one page, and the
        offset effect starts the fetch of that page. */
    method ClickPrevious() returns (request: Option<Request<ProductResponse>>)
      requires Valid()
      modifies this
      ensures Valid()
      ensures old(PreviousDisabled()) ==> request == None && unchanged(this)
      ensures !old(PreviousDisabled()) ==>
                && offset == old(offset) - Limit
                && loading && data == old(data)
                && request == Some(PageRequest(offset))
    {
      if PreviousDisabled() {
        return None;
      }
      offset := PreviousOffset(offset);
      var r := BeginFetch();
      request := Some(r);
    }

    /** Next: nothing while loading; otherwise on one page, however many
        rows the current one showed, and the offset effect starts the fetch. */
    method ClickNext() returns (request: Option<Request<ProductResponse>>)
      requires Valid()
      modifies this
      ensures Valid()
      ensures old(NextDisabled()) ==> request == None && unchanged(this)
      ensures !old(NextDisabled()) ==>
                && offset == old(offset) + Limit
                && loading && data == old(data)
                && request == Some(PageRequest(offset))
    {
      if NextDisabled() {
        return None;
      }
      offset := NextOffset(offset);
      var r := BeginFetch();
      request := Some(r);
    }
  }
}
