/**
  The product endpoints of the FastAPI backend over the `products` table.
  The table is a map from primary key to the fourteen columns; the
  database's id sequence is the counter `nextId`.
 */
module ProductService {
  import opened Maybe
  import opened ProductRecord

  /** An `HTTPException` with its status and detail, or FastAPI's own 422
      response for query parameters that fail their `ge=` bounds, which
      names the failing parameters in declaration order. */
  datatype HttpError =
    | HttpError(status: int, detail: string)
    | ValidationError(query: seq<string>)

  datatype Result<T> = Success(value: T) | Failure(error: HttpError)

  const ProductNotFound := HttpError(404, "Product not found")
  const CodeNotFound := HttpError(404, "No products found with this code")

  /** The number of keys below `x`: the position of `x` in ascending order. */
  ghost function Rank(keys: set<int>, x: int): nat {
    |set k | k in keys && k < x|
  }

  /** A proof step with no counterpart in the service: a non-empty set has
      an element to pick with `:|`. */
  lemma NonEmptyHasElement(s: set<int>)
    requires s != {}
    ensures exists x :: x in s
  {
    if !exists x :: x in s { assert false; }
  }

  lemma {:induction false} MinExists(s: set<int>)
    requires s != {}
    ensures exists m :: m in s && forall k :: k in s ==> m <= k
    decreases s
  {
    NonEmptyHasElement(s);
    var x :| x in s;
    var rest := s - {x};
    if rest == {} {
      MinOfSmaller(s, x, rest, x);
    } else {
      MinExists(rest);
      var m :| m in rest && forall k :: k in rest ==> m <= k;
      MinOfSmaller(s, x, rest, m);
    }
  }

  /** Adding `x` back to a set whose least key is `m` (or to the empty set,
      taking `m == x`) gives a set with a least key. */
  lemma MinOfSmaller(s: set<int>, x: int, rest: set<int>, m: int)
    requires x in s && rest == s - {x}
    requires rest == {} ==> m == x
    requires rest != {} ==> m in rest && forall k :: k in rest ==> m <= k
    ensures exists low :: low in s && forall k :: k in s ==> low <= k
  {
    var low := if x < m then x else m;
    forall k | k in s ensures low <= k {
      if k != x { assert k in rest; }
    }
    assert low in s;
  }

  function MinKey(s: set<int>): (m: int)
    requires s != {}
    ensures m in s && forall k :: k in s ==> m <= k
  {
    MinExists(s);
    var m :| m in s && forall k :: k in s ==> m <= k;
    m
  }

  /** Strictly increasing. */
  predicate Ascending(s: seq<int>) {
    forall i, j :: 0 <= i < j < |s| ==> s[i] < s[j]
  }

  /** `ORDER BY id ASC` over a set of keys. */
  function AscendingKeys(s: set<int>): (r: seq<int>)
    ensures |r| == |s|
    ensures forall i :: 0 <= i < |r| ==> r[i] in s
    ensures forall k :: k in s ==> k in r
    ensures Ascending(r)
    decreases s
  {
    if s == {} then []
    else
      var m := MinKey(s);
      var rest := AscendingKeys(s - {m});
      PrependMin(s, m, rest);
      [m] + rest
  }

  /** The least key in front of the ascending keys of the others gives the
      ascending keys of the whole set. */
  lemma PrependMin(s: set<int>, m: int, rest: seq<int>)
    requires m in s && forall k :: k in s ==> m <= k
    requires |rest| == |s - {m}| && Ascending(rest)
    requires forall i :: 0 <= i < |rest| ==> rest[i] in s - {m}
    requires forall k :: k in s - {m} ==> k in rest
    ensures |[m] + rest| == |s| && Ascending([m] + rest)
    ensures forall i :: 0 <= i < |[m] + rest| ==> ([m] + rest)[i] in s
    ensures forall k :: k in s ==> k in [m] + rest
  {
    forall i | 0 <= i < |rest| ensures m < rest[i] {
      assert rest[i] in s - {m};
    }
    PrependAscending(m, rest);
  }

  /** Putting a key below every element in front keeps a sequence
      ascending. */
  lemma PrependAscending(m: int, rest: seq<int>)
    requires Ascending(rest)
    requires forall i :: 0 <= i < |rest| ==> m < rest[i]
    ensures Ascending([m] + rest)
    ensures forall k :: k in [m] + rest <==> k == m || k in rest
  {
    var r := [m] + rest;
    forall i, j | 0 <= i < j < |r| ensures r[i] < r[j] {
      assert r[j] == rest[j - 1];
      if i > 0 {
        assert r[i] == rest[i - 1];
      }
    }
  }

  function Min(a: int, b: int): int { if a < b then a else b }
  function Max(a: int, b: int): int { if a < b then b else a }

  /** Removing the least key lowers the rank of every larger key by one. */
  lemma RankAboveMin(s: set<int>, m: int, x: int)
    requires m in s && m < x
    ensures Rank(s, x) == Rank(s - {m}, x) + 1
  {
    var below := set k | k in s - {m} && k < x;
    assert (set k | k in s && k < x) == below + {m};
  }

  /** The `i`-th key in ascending order has exactly `i` keys below it. */
  lemma {:induction false} AscendingKeysRank(s: set<int>, i: int)
    requires 0 <= i < |AscendingKeys(s)|
    ensures Rank(s, AscendingKeys(s)[i]) == i
    decreases s
  {
    var m := MinKey(s);
    var rest := s - {m};
    AscendingKeysCons(s);
    if i == 0 {
      MinHasRankZero(s, m);
    } else {
      var x := AscendingKeys(rest)[i - 1];
      AscendingKeysRank(rest, i - 1);
      RankAboveMin(s, m, x);
    }
  }

  /** The ascending keys are the least key followed by the ascending rest. */
  lemma AscendingKeysCons(s: set<int>)
    requires s != {}
    ensures AscendingKeys(s)[0] == MinKey(s)
    ensures forall j :: 0 < j < |AscendingKeys(s)| ==>
              AscendingKeys(s)[j] == AscendingKeys(s - {MinKey(s)})[j - 1]
    ensures forall j :: 0 <= j < |AscendingKeys(s - {MinKey(s)})| ==>
              MinKey(s) < AscendingKeys(s - {MinKey(s)})[j]
  {
    var m := MinKey(s);
    var rest := AscendingKeys(s - {m});
    assert AscendingKeys(s) == [m] + rest;
    forall j | 0 <= j < |rest| ensures m < rest[j] {
      var k := rest[j];
      assert k in s - {m};
    }
  }

  lemma MinHasRankZero(s: set<int>, m: int)
    requires m in s && forall k :: k in s ==> m <= k
    ensures Rank(s, m) == 0
  {
    assert (set k | k in s && k < m) == {};
  }

  /** The slice `ids[offset..][..limit]` that SQL's `OFFSET`/`LIMIT` select. */
  function Window(ids: seq<int>, limit: int, offset: int): (w: seq<int>)
    requires limit >= 1 && offset >= 0
    ensures |w| == Min(limit, Max(0, |ids| - offset))
    ensures forall i :: 0 <= i < |w| ==> w[i] == ids[offset + i]
  {
    if offset < |ids| then ids[offset..Min(offset + limit, |ids|)] else []
  }

  /** A window of an ascending sequence is ascending. */
  lemma WindowAscending(ids: seq<int>, limit: int, offset: int)
    requires limit >= 1 && offset >= 0 && Ascending(ids)
    ensures Ascending(Window(ids, limit, offset))
  {
    var w := Window(ids, limit, offset);
    forall i, j | 0 <= i < j < |w| ensures w[i] < w[j] {
      assert w[i] == ids[offset + i] && w[j] == ids[offset + j];
    }
  }

  /** The `i`-th key of a window of the ascending keys is preceded by
      exactly `offset + i` keys. */
  lemma WindowRank(s: set<int>, limit: int, offset: int)
    requires limit >= 1 && offset >= 0
    ensures forall i :: 0 <= i < |Window(AscendingKeys(s), limit, offset)| ==>
              && Window(AscendingKeys(s), limit, offset)[i] in s
              && Rank(s, Window(AscendingKeys(s), limit, offset)[i]) == offset + i
  {
    var ids := AscendingKeys(s);
    var w := Window(ids, limit, offset);
    forall i | 0 <= i < |w| ensures w[i] in s && Rank(s, w[i]) == offset + i {
      assert w[i] == ids[offset + i];
      AscendingKeysRank(s, offset + i);
    }
  }

  /** In an ascending sequence, the tail is ascending and the head is
      below everything drawn from the tail. */
  lemma AscendingTail(ids: seq<int>, tail: seq<int>)
    requires ids != [] && Ascending(ids)
    requires forall k :: k in tail ==> k in ids[1..]
    ensures Ascending(ids[1..])
    ensures forall i :: 0 <= i < |tail| ==> ids[0] < tail[i]
  {
    forall i | 0 <= i < |tail| ensures ids[0] < tail[i] {
      var k := tail[i];
      assert k in tail;
      var j :| 0 <= j < |ids[1..]| && ids[1..][j] == k;
      assert ids[j + 1] == k;
    }
  }

  /** The keys of `ids` whose row has `code`, in the order of `ids`. */
  function WithCode(rows: map<int, ProductBase>, ids: seq<int>, code: string): (r: seq<int>)
    requires forall i :: 0 <= i < |ids| ==> ids[i] in rows
    ensures forall k :: k in r <==> k in ids && rows[k].code == Some(code)
    ensures Ascending(ids) ==> Ascending(r)
  {
    if ids == [] then []
    else
      var tail := WithCode(rows, ids[1..], code);
      assert forall k :: k in ids <==> k == ids[0] || k in ids[1..];
      if rows[ids[0]].code == Some(code) then
        var r := [ids[0]] + tail;
        assert Ascending(ids) ==> Ascending(r) by {
          if Ascending(ids) {
            AscendingTail(ids, tail);
            PrependAscending(ids[0], tail);
          }
        }
        r
      else
        assert Ascending(ids) ==> Ascending(tail) by {
          if Ascending(ids) {
            AscendingTail(ids, tail);
          }
        }
        tail
  }

  /** The responses for the keys `ids`, in that order. */
  function Responses(rows: map<int, ProductBase>, ids: seq<int>): (r: seq<ProductResponse>)
    requires forall i :: 0 <= i < |ids| ==> ids[i] in rows
    ensures |r| == |ids|
    ensures forall i :: 0 <= i < |r| ==> r[i].id == ids[i] && r[i].base == rows[ids[i]]
  {
    seq(|ids|, i requires 0 <= i < |ids| => ProductResponse(ids[i], rows[ids[i]]))
  }

  /** The fields of a `ProductUpdate` body that the client set
      (`dict(exclude_unset=True)`), with the value it sent for each. */
  type ProductUpdate = map<Column, Cell>

  /** Every column, in declaration order. */
  const AllColumns: seq<Column> :=
    [Code, MainCat, SubCat, Brand, Model, HousingSize, Function,
     Range, Output, Voltage, Connection, Material, Images, Pdf]

  lemma AllColumnsComplete()
    ensures forall c :: c in AllColumns
  {
    forall c ensures c in AllColumns {
      match c
      case Code => assert AllColumns[0] == c;
      case MainCat => assert AllColumns[1] == c;
      case SubCat => assert AllColumns[2] == c;
      case Brand => assert AllColumns[3] == c;
      case Model => assert AllColumns[4] == c;
      case HousingSize => assert AllColumns[5] == c;
      case Function => assert AllColumns[6] == c;
      case Range => assert AllColumns[7] == c;
      case Output => assert AllColumns[8] == c;
      case Voltage => assert AllColumns[9] == c;
      case Connection => assert AllColumns[10] == c;
      case Material => assert AllColumns[11] == c;
      case Images => assert AllColumns[12] == c;
      case Pdf => assert AllColumns[13] == c;
    }
  }

  /** The row after a partial update: the value sent for each field the
      body sets, the stored value for every other. */
  function ApplyUpdate(p: ProductBase, patch: ProductUpdate): ProductBase {
    ProductBase(
      if Code in patch then patch[Code] else p.code,
      if MainCat in patch then patch[MainCat] else p.main_cat,
      if SubCat in patch then patch[SubCat] else p.sub_cat,
      if Brand in patch then patch[Brand] else p.brand,
      if Model in patch then patch[Model] else p.model,
      if HousingSize in patch then patch[HousingSize] else p.housing_size,
      if Function in patch then patch[Function] else p.func,
      if Range in patch then patch[Range] else p.range,
      if Output in patch then patch[Output] else p.output,
      if Voltage in patch then patch[Voltage] else p.voltage,
      if Connection in patch then patch[Connection] else p.connection,
      if Material in patch then patch[Material] else p.material,
      if Images in patch then patch[Images] else p.images,
      if Pdf in patch then patch[Pdf] else p.pdf)
  }

  /** Column by column: every column named in `patch` takes the value
      sent, every other column keeps its stored value. */
  lemma ApplyUpdateColumns(p: ProductBase, patch: ProductUpdate)
    ensures forall c :: Value(ApplyUpdate(p, patch), c) == if c in patch then patch[c] else Value(p, c)
  {
    var r := ApplyUpdate(p, patch);
    forall c ensures Value(r, c) == if c in patch then patch[c] else Value(p, c) {
      match c
      case Code =>
      case MainCat =>
      case SubCat =>
      case Brand =>
      case Model =>
      case HousingSize =>
      case Function =>
      case Range =>
      case Output =>
      case Voltage =>
      case Connection =>
      case Material =>
      case Images =>
      case Pdf =>
    }
  }

  /** An update that sets no field leaves the row as it was. */
  lemma EmptyUpdateIsIdentity(p: ProductBase)
    ensures ApplyUpdate(p, map[]) == p
  {
    ApplyUpdateColumns(p, map[]);
    ColumnsDetermine(ApplyUpdate(p, map[]), p);
  }

  /** Applying the same update twice is the same as applying it once. */
  lemma UpdateIsIdempotent(p: ProductBase, patch: ProductUpdate)
    ensures ApplyUpdate(ApplyUpdate(p, patch), patch) == ApplyUpdate(p, patch)
  {
    ApplyUpdateColumns(p, patch);
    ApplyUpdateColumns(ApplyUpdate(p, patch), patch);
    ColumnsDetermine(ApplyUpdate(ApplyUpdate(p, patch), patch), ApplyUpdate(p, patch));
  }

  /** `product` is `stored` with every column of `patch` outside `pending`
      already written. */
  ghost predicate Patched(stored: ProductBase, patch: ProductUpdate, pending: set<Column>, product: ProductBase) {
    forall c :: Value(product, c) == if c in patch && c !in pending then patch[c] else Value(stored, c)
  }

  /** One `setattr` moves its column from pending to written. */
  lemma SetStep(stored: ProductBase, patch: ProductUpdate, pending: set<Column>, product: ProductBase, key: Column)
    requires key in pending && key in patch
    requires Patched(stored, patch, pending, product)
    ensures Patched(stored, patch, pending - {key}, Set(product, key, patch[key]))
  {
  }

  /** Once nothing is pending, the row is the updated row. */
  lemma AllWritten(stored: ProductBase, patch: ProductUpdate, product: ProductBase)
    requires Patched(stored, patch, {}, product)
    ensures product == ApplyUpdate(stored, patch)
  {
    ApplyUpdateColumns(stored, patch);
    ColumnsDetermine(product, ApplyUpdate(stored, patch));
  }

  /** The `for key, value in ...items(): setattr(db_product, key, value)`
      loop: writes the fields of `patch` one at a time, in no particular
      order, and ends with the row `ApplyUpdate` describes. */
  method SetAttributes(stored: ProductBase, patch: ProductUpdate) returns (product: ProductBase)
    ensures product == ApplyUpdate(stored, patch)
  {
    product := stored;
    var pending := patch.Keys;
    while pending != {}
      invariant pending <= patch.Keys
      invariant Patched(stored, patch, pending, product)
      decreases pending
    {
      var key :| key in pending;
      SetStep(stored, patch, pending, product, key);
      product := Set(product, key, patch[key]);
      pending := pending - {key};
    }
    AllWritten(stored, patch, product);
  }

  lemma ElementsIn(ids: seq<int>, keys: set<int>)
    requires forall k :: k in ids ==> k in keys
    ensures forall i :: 0 <= i < |ids| ==> ids[i] in keys
  {
    forall i | 0 <= i < |ids| ensures ids[i] in keys {
      var k := ids[i];
      assert k in ids;
    }
  }

  /** No key of the table survives the code filter only when no row has that code. */
  lemma NoMatch(rows: map<int, ProductBase>, code: string)
    requires WithCode(rows, AscendingKeys(rows.Keys), code) == []
    ensures forall k :: k in rows ==> rows[k].code != Some(code)
  {
    forall k | k in rows ensures rows[k].code != Some(code) {
      assert k in AscendingKeys(rows.Keys);
    }
  }

  /** A response is in `Responses(rows, ids)` exactly when its id is in
      `ids` and it carries that id's row. */
  lemma ResponsesMembership(rows: map<int, ProductBase>, ids: seq<int>)
    requires forall i :: 0 <= i < |ids| ==> ids[i] in rows
    ensures forall p :: p in Responses(rows, ids) <==> p.id in ids && p.base == rows[p.id]
  {
    var r := Responses(rows, ids);
    forall p: ProductResponse | p in r ensures p.id in ids {
      var i :| 0 <= i < |r| && r[i] == p;
    }
    forall p: ProductResponse | p.id in ids && p.base == rows[p.id] ensures p in r {
      var i :| 0 <= i < |ids| && ids[i] == p.id;
      assert r[i] == p;
    }
  }

  class ProductTable {
    var rows: map<int, ProductBase>
    /** The next value of the primary-key sequence. */
    var nextId: int

    ghost predicate Valid()
      reads this
    {
      forall k :: k in rows ==> k < nextId
    }

    constructor ()
      ensures Valid() && rows == map[]
    {
      rows := map[];
      nextId := 1;
    }

    /** GET /products: rows in ascending id order, skipping `offset` and
        returning at most `limit`; an absent `limit` is 10 and an absent
        `offset` is 0, and FastAPI rejects `limit < 1` or `offset < 0`
        with a 422 naming each failing parameter. */
    function GetAllProducts(limit: Option<int>, offset: Option<int>): (r: Result<seq<ProductResponse>>)
      reads this
      ensures r.Failure? <==> limit.GetOr(10) < 1 || offset.GetOr(0) < 0
      ensures r.Failure? ==> && r.error.ValidationError?
                             && ("limit" in r.error.query <==> limit.GetOr(10) < 1)
                             && ("offset" in r.error.query <==> offset.GetOr(0) < 0)
      ensures r.Success? ==> |r.value| == Min(limit.GetOr(10), Max(0, |rows| - offset.GetOr(0)))
      ensures r.Success? ==> forall i :: 0 <= i < |r.value| ==>
                r.value[i].id in rows && r.value[i].base == rows[r.value[i].id]
      ensures r.Success? ==> forall i, j :: 0 <= i < j < |r.value| ==> r.value[i].id < r.value[j].id
      ensures r.Success? ==> forall i :: 0 <= i < |r.value| ==> Rank(rows.Keys, r.value[i].id) == offset.GetOr(0) + i
    {
      var l := limit.GetOr(10);
      var o := offset.GetOr(0);
      if l < 1 || o < 0 then
        Failure(ValidationError((if l < 1 then ["limit"] else []) + (if o < 0 then ["offset"] else [])))
      else
        var page := Window(AscendingKeys(rows.Keys), l, o);
        WindowAscending(AscendingKeys(rows.Keys), l, o);
        WindowRank(rows.Keys, l, o);
        Success(Responses(rows, page))
    }

    /** GET /products/{id}: the row with that id, or 404. */
    function GetProductById(id: int): (r: Result<ProductResponse>)
      reads this
      ensures r.Success? <==> id in rows
      ensures r.Success? ==> r.value.id == id && r.value.base == rows[id]
      ensures r.Failure? ==> r.error == ProductNotFound
    {
      if id in rows then Success(ProductResponse(id, rows[id])) else Failure(ProductNotFound)
    }

    /** GET /products/code/{code}: exactly the rows whose code is `code`,
        each once; 404 when there is none. */
    function GetProductsByCode(code: string): (r: Result<seq<ProductResponse>>)
      reads this
      ensures r.Failure? <==> forall k :: k in rows ==> rows[k].code != Some(code)
      ensures r.Failure? ==> r.error == CodeNotFound
      ensures r.Success? ==> forall p :: p in r.value <==>
                p.id in rows && p.base == rows[p.id] && p.base.code == Some(code)
      ensures r.Success? ==> forall i, j :: 0 <= i < j < |r.value| ==> r.value[i].id != r.value[j].id
    {
      var ids := WithCode(rows, AscendingKeys(rows.Keys), code);
      ElementsIn(ids, rows.Keys);
      if ids == [] then
        NoMatch(rows, code);
        Failure(CodeNotFound)
      else
        var r := Responses(rows, ids);
        ResponsesMembership(rows, ids);
        assert rows[ids[0]].code == Some(code) by { assert ids[0] in ids; }
        Success(r)
    }

    /** DELETE /products/{id}: removes exactly that row, or 404 with the table unchanged. */
    method DeleteProductById(id: int) returns (r: Result<string>)
      requires Valid()
      modifies this
      ensures Valid() && nextId == old(nextId)
      ensures id in old(rows) ==> r == Success("Product deleted successfully") && rows == old(rows) - {id}
      ensures id !in old(rows) ==> r == Failure(ProductNotFound) && rows == old(rows)
      ensures GetProductById(id).Failure?
    {
      if id !in rows {
        return Failure(ProductNotFound);
      }
      rows := rows - {id};
      r := Success("Product deleted successfully");
    }

    /** PUT /products/{id}: overwrites only the columns the body sets, one
        `setattr` at a time; 404 with the table unchanged for an absent id. */
    method UpdateProductById(id: int, patch: ProductUpdate) returns (r: Result<ProductResponse>)
      requires Valid()
      modifies this
      ensures Valid() && nextId == old(nextId)
      ensures id !in old(rows) ==> r == Failure(ProductNotFound) && rows == old(rows)
      ensures id in old(rows) ==>
                && rows == old(rows)[id := ApplyUpdate(old(rows)[id], patch)]
                && r == Success(ProductResponse(id, rows[id]))
    {
      if id !in rows {
        return Failure(ProductNotFound);
      }
      var product := SetAttributes(rows[id], patch);
      rows := rows[id := product];
      r := Success(ProductResponse(id, product));
    }

    /** POST /products: inserts one row holding the fourteen fields of the
        body under an id that was not in the table, and returns the success
        message with that id. */
    method AddProduct(product: ProductBase) returns (message: string, id: int)
      requires Valid()
      modifies this
      ensures Valid()
      ensures message == "Product added successfully"
      ensures id !in old(rows)
      ensures rows == old(rows)[id := product]
      ensures GetProductById(id) == Success(ProductResponse(id, product))
    {
      message := "Product added successfully";
      id := nextId;
      rows := rows[id := product];
      nextId := nextId + 1;
    }
  }
}
