/**
  The product table's edit sheet: a row's Edit trigger seeds the form from
  the row (nulls shown as `""`), the zod schema gates submission, and a
  successful PUT resets the form to the seeded row and closes the sheet.
 */
module ProductEditForm {
  import opened Maybe
  import opened Http
  import opened ProductRecord
  import opened FieldRules
  import opened ProductService

  /** The edit form's schema: five required strings, `range`, `images` and
      `pdf` nullable, every other column any string. */
  function EditRule(c: Column): Rule {
    match c
    case Code => RequiredString
    case MainCat => RequiredString
    case SubCat => RequiredString
    case Brand => RequiredString
    case Model => RequiredString
    case Range => NullableString
    case Images => NullableString
    case Pdf => NullableString
    case _ => AnyString
  }

  predicate EditValid(v: ProductBase) {
    Conforms(EditRule, v)
  }

  /** The schema accepts a form exactly when its five required columns are
      filled and every column but `range`, `images` and `pdf` holds a
      string; on a form holding only strings, which is every form the sheet
      shows, the five required columns decide. */
  lemma EditValidIff(v: ProductBase)
    ensures EditValid(v) <==>
              && RequiredFilled(v)
              && forall c :: c != Range && c != Images && c != Pdf ==> Value(v, c).Some?
    ensures AllStrings(v) ==> (EditValid(v) <==> RequiredFilled(v))
  {
    if EditValid(v) {
      assert Accepts(EditRule(Code), Value(v, Code)) && Accepts(EditRule(MainCat), Value(v, MainCat));
      assert Accepts(EditRule(SubCat), Value(v, SubCat)) && Accepts(EditRule(Brand), Value(v, Brand));
      assert Accepts(EditRule(Model), Value(v, Model));
      forall c | c != Range && c != Images && c != Pdf ensures Value(v, c).Some? {
        assert Accepts(EditRule(c), Value(v, c));
      }
    }
    if RequiredFilled(v) && forall c :: c != Range && c != Images && c != Pdf ==> Value(v, c).Some? {
      forall c ensures Accepts(EditRule(c), Value(v, c)) {
        if c != Range && c != Images && c != Pdf {
          assert Value(v, c).Some?;
        }
      }
    }
  }

  /** The seeding effect's `value ?? ""` over the row's entries. */
  function Sanitize(p: ProductBase): ProductBase {
    ProductBase(
      Some(p.code.GetOr("")), Some(p.main_cat.GetOr("")), Some(p.sub_cat.GetOr("")),
      Some(p.brand.GetOr("")), Some(p.model.GetOr("")), Some(p.housing_size.GetOr("")),
      Some(p.func.GetOr("")), Some(p.range.GetOr("")), Some(p.output.GetOr("")),
      Some(p.voltage.GetOr("")), Some(p.connection.GetOr("")), Some(p.material.GetOr("")),
      Some(p.images.GetOr("")), Some(p.pdf.GetOr("")))
  }

  /** Column by column: a string stays, a null becomes `""`. */
  lemma SanitizeColumns(p: ProductBase)
    ensures forall c :: Value(p, c).Some? ==> Value(Sanitize(p), c) == Value(p, c)
    ensures forall c :: Value(p, c).None? ==> Value(Sanitize(p), c) == Some("")
  {
    forall c ensures Value(Sanitize(p), c) == Some(Value(p, c).GetOr("")) {
      match c
      case Code =>
      case MainCat =>
      case SubCat =>
      case Brand =>
      case Model =>
      case HousingSize =>
      case Function =>
      case Range =>
      case Output =>
      case Voltage =>
      case Connection =>
      case Material =>
      case Images =>
      case Pdf =>
    }
  }

  /** A seeded form holds only strings, seeding it again changes nothing,
      and the schema accepts it exactly when the row's five required
      columns were filled. */
  lemma SanitizeProperties(p: ProductBase)
    ensures AllStrings(Sanitize(p))
    ensures Sanitize(Sanitize(p)) == Sanitize(p)
    ensures EditValid(Sanitize(p)) <==> RequiredFilled(p)
  {
    SanitizeColumns(p);
    SanitizeColumns(Sanitize(p));
    ColumnsDetermine(Sanitize(Sanitize(p)), Sanitize(p));
    EditValidIff(Sanitize(p));
  }

  /** The PUT body: `JSON.stringify` of the parsed form sets all fourteen
      fields, so `dict(exclude_unset=True)` holds every column. */
  function FullUpdate(p: ProductBase): ProductUpdate {
    map c | c in AllColumns :: Value(p, c)
  }

  /** The backend applies a form's PUT by replacing the stored row with the
      form, whatever the row held before. */
  lemma FullUpdateReplaces(stored: ProductBase, p: ProductBase)
    ensures ApplyUpdate(stored, FullUpdate(p)) == p
  {
    AllColumnsComplete();
    ApplyUpdateColumns(stored, FullUpdate(p));
    ColumnsDetermine(ApplyUpdate(stored, FullUpdate(p)), p);
  }

  /** Saving a row without editing it is not a no-op: every null column of
      the row is stored as `""`, every other column keeps its value. */
  lemma ResaveBlanksNulls(p: ProductBase)
    ensures forall c :: Value(p, c).None? ==> Value(ApplyUpdate(p, FullUpdate(Sanitize(p))), c) == Some("")
    ensures forall c :: Value(p, c).Some? ==> Value(ApplyUpdate(p, FullUpdate(Sanitize(p))), c) == Value(p, c)
  {
    FullUpdateReplaces(p, Sanitize(p));
    SanitizeColumns(p);
  }

  class DataTable {
    var selectedRow: Option<ProductResponse>
    /** The form's current values. */
    var values: ProductBase
    /** The form's default values, which `reset(values)` replaces and a
        bare `reset()` restores. */
    var defaults: ProductBase

    /** The form holds strings only. */
    ghost predicate Valid()
      reads this
    {
      AllStrings(values) && AllStrings(defaults)
    }

    constructor ()
      ensures Valid() && selectedRow == None && values == Blank() && defaults == Blank()
    {
      selectedRow := None;
      values := Blank();
      defaults := Blank();
    }

    /** A row's Edit trigger: `setSelectedRow(row.original)`. When the row
        is already the selection the state does not change and the effect
        does not run, so the form keeps what was typed; otherwise the effect
        seeds both the values and the defaults from the row. */
    method SelectRow(row: ProductResponse)
      requires Valid()
      modifies this
      ensures Valid()
      ensures old(selectedRow) == Some(row) ==> unchanged(this)
      ensures old(selectedRow) != Some(row) ==>
                selectedRow == Some(row) && values == Sanitize(row.base) && defaults == values
    {
      if selectedRow == Some(row) {
        return;
      }
      selectedRow := Some(row);
      SanitizeProperties(row.base);
      values := Sanitize(row.base);
      defaults := values;
    }

    /** Typing `text` into the input of column `c`. */
    method SetField(c: Column, text: string)
      requires Valid()
      modifies this
      ensures Valid()
      ensures values == Set(old(values), c, Some(text))
      ensures selectedRow == old(selectedRow) && defaults == old(defaults)
    {
      values := Set(values, c, Some(text));
    }

    /** Update: `handleSubmit(onSubmit)`. The schema stops a form whose
        required columns are not all filled; `onSubmit` stops when no row
        with a truthy id is selected; otherwise it PUTs the form to
        /products/{id}, and a success resets the form to its defaults,
        clears the selection and asks the page to refetch. */
    method Submit(response: Response<()>) returns (request: Option<Request<ProductBase>>, refresh: bool)
      requires Valid()
      modifies this
      ensures Valid()
      ensures !RequiredFilled(old(values)) ==> request == None && !refresh && unchanged(this)
      ensures RequiredFilled(old(values)) && (old(selectedRow).None? || old(selectedRow).value.id == 0) ==>
                request == None && !refresh && unchanged(this)
      ensures RequiredFilled(old(values)) && old(selectedRow).Some? && old(selectedRow).value.id != 0 ==>
                && request == Some(Request(Put, Member("products", Some(old(selectedRow).value.id)), Some(old(values))))
                && (response.Ok? <==> refresh)
                && (response.Ok? ==> selectedRow == None && values == old(defaults) && defaults == old(defaults))
                && (response.Fail? ==> unchanged(this))
    {
      request, refresh := None, false;
      EditValidIff(values);
      if !EditValid(values) {
        return;
      }
      if selectedRow.None? || selectedRow.value.id == 0 {
        return;
      }
      request := Some(Request(Put, Member("products", Some(selectedRow.value.id)), Some(values)));
      if response.Ok? {
        values := defaults;
        selectedRow := None;
        refresh := true;
      }
    }
  }
}
