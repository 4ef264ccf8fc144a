/**
  The product record as the API exchanges it: fourteen nullable string
  columns, plus the integer id the database assigns. The backend's ORM
  class and request bodies and the frontend's forms all carry this shape.
 */
module ProductRecord {
  import opened Maybe

  /** A nullable VARCHAR(255) column; `None` is SQL NULL and JSON `null`. */
  type Cell = Option<string>

  /** The fourteen columns, in declaration order. */
  datatype Column =
    | Code | MainCat | SubCat | Brand | Model | HousingSize | Function
    | Range | Output | Voltage | Connection | Material | Images | Pdf

  /** The columns without the id. The column named `function` is `func`
      here, because `function` is a Dafny keyword. */
  datatype ProductBase = ProductBase(
    code: Cell, main_cat: Cell, sub_cat: Cell, brand: Cell, model: Cell,
    housing_size: Cell, func: Cell, range: Cell, output: Cell, voltage: Cell,
    connection: Cell, material: Cell, images: Cell, pdf: Cell)

  /** A stored row as the API returns it. */
  datatype ProductResponse = ProductResponse(id: int, base: ProductBase)

  /** `getattr(p, c)`. */
  function Value(p: ProductBase, c: Column): Cell {
    match c
    case Code => p.code
    case MainCat => p.main_cat
    case SubCat => p.sub_cat
    case Brand => p.brand
    case Model => p.model
    case HousingSize => p.housing_size
    case Function => p.func
    case Range => p.range
    case Output => p.output
    case Voltage => p.voltage
    case Connection => p.connection
    case Material => p.material
    case Images => p.images
    case Pdf => p.pdf
  }

  /** `setattr(p, c, v)`: column `c` becomes `v`, every other column keeps its value. */
  function Set(p: ProductBase, c: Column, v: Cell): (r: ProductBase)
    ensures Value(r, c) == v
    ensures forall d :: d != c ==> Value(r, d) == Value(p, d)
  {
    match c
    case Code => p.(code := v)
    case MainCat => p.(main_cat := v)
    case SubCat => p.(sub_cat := v)
    case Brand => p.(brand := v)
    case Model => p.(model := v)
    case HousingSize => p.(housing_size := v)
    case Function => p.(func := v)
    case Range => p.(range := v)
    case Output => p.(output := v)
    case Voltage => p.(voltage := v)
    case Connection => p.(connection := v)
    case Material => p.(material := v)
    case Images => p.(images := v)
    case Pdf => p.(pdf := v)
  }

  /** Two records are equal exactly when they agree on every column. */
  lemma {:induction false} ColumnsDetermine(p: ProductBase, q: ProductBase)
    requires forall c :: Value(p, c) == Value(q, c)
    ensures p == q
  {
    assert Value(p, Code) == Value(q, Code) && Value(p, MainCat) == Value(q, MainCat);
    assert Value(p, SubCat) == Value(q, SubCat) && Value(p, Brand) == Value(q, Brand);
    assert Value(p, Model) == Value(q, Model) && Value(p, HousingSize) == Value(q, HousingSize);
    assert Value(p, Function) == Value(q, Function) && Value(p, Range) == Value(q, Range);
    assert Value(p, Output) == Value(q, Output) && Value(p, Voltage) == Value(q, Voltage);
    assert Value(p, Connection) == Value(q, Connection) && Value(p, Material) == Value(q, Material);
    assert Value(p, Images) == Value(q, Images) && Value(p, Pdf) == Value(q, Pdf);
  }

  /** The form's default values: `""` in every one of the fourteen fields. */
  function Blank(): (r: ProductBase)
    ensures forall c :: Value(r, c) == Some("")
  {
    ProductBase(Some(""), Some(""), Some(""), Some(""), Some(""), Some(""), Some(""),
                Some(""), Some(""), Some(""), Some(""), Some(""), Some(""), Some(""))
  }
}
