/**
  The add-product form: fourteen inputs starting empty, the zod schema
  gating submission, a POST of the parsed form, and a reset to the empty
  form after a success.
 */
module ProductAddForm {
  import opened Maybe
  import opened Http
  import opened ProductRecord
  import opened FieldRules
  import opened ProductEditForm

  /** The add form's schema: the same five required strings as the edit
      form, and any string (no null) for every other column. */
  function AddRule(c: Column): Rule {
    match c
    case Code => RequiredString
    case MainCat => RequiredString
    case SubCat => RequiredString
    case Brand => RequiredString
    case Model => RequiredString
    case _ => AnyString
  }

  predicate AddValid(v: ProductBase) {
    Conforms(AddRule, v)
  }

  /** The add schema accepts exactly the all-string forms whose five
      required columns are filled. */
  lemma AddValidIff(v: ProductBase)
    ensures AddValid(v) <==> AllStrings(v) && RequiredFilled(v)
  {
    if AddValid(v) {
      assert Accepts(AddRule(Code), Value(v, Code)) && Accepts(AddRule(MainCat), Value(v, MainCat));
      assert Accepts(AddRule(SubCat), Value(v, SubCat)) && Accepts(AddRule(Brand), Value(v, Brand));
      assert Accepts(AddRule(Model), Value(v, Model));
      forall c ensures Value(v, c).Some? {
        assert Accepts(AddRule(c), Value(v, c));
      }
    }
    if AllStrings(v) && RequiredFilled(v) {
      forall c ensures Accepts(AddRule(c), Value(v, c)) {
        assert Value(v, c).Some?;
      }
    }
  }

  /** The add schema is the stricter one, and on the all-string forms the
      inputs produce the two schemas agree. */
  lemma AddStricterThanEdit(v: ProductBase)
    ensures AddValid(v) ==> EditValid(v)
    ensures AllStrings(v) ==> (AddValid(v) <==> EditValid(v))
  {
    AddValidIff(v);
    EditValidIff(v);
  }

  /** Neither schema accepts the empty form. */
  lemma BlankRejected()
    ensures !AddValid(Blank()) && !EditValid(Blank())
  {
    AddValidIff(Blank());
    EditValidIff(Blank());
  }

  class ProfileForm {
    var values: ProductBase

    ghost predicate Valid()
      reads this
    {
      AllStrings(values)
    }

    constructor ()
      ensures Valid() && values == Blank()
    {
      values := Blank();
    }

    /** Typing `text` into the input of column `c`. */
    method SetField(c: Column, text: string)
      requires Valid()
      modifies this
      ensures Valid() && values == Set(old(values), c, Some(text))
    {
      values := Set(values, c, Some(text));
    }

    /** Submit: `handleSubmit(onSubmit)`. Nothing without the five required
        columns; otherwise a POST of the form to /products, after which a
        success empties the form and a failure keeps it. */
    method Submit(response: Response<()>) returns (request: Option<Request<ProductBase>>)
      requires Valid()
      modifies this
      ensures Valid()
      ensures !RequiredFilled(old(values)) ==> request == None && unchanged(this)
      ensures RequiredFilled(old(values)) ==>
                && request == Some(Request(Post, Collection("products"), Some(old(values))))
                && (response.Ok? ==> values == Blank())
                && (response.Fail? ==> values == old(values))
    {
      AddValidIff(values);
      if !AddValid(values) {
        return None;
      }
      request := Some(Request(Post, Collection("products"), Some(values)));
      if response.Ok? {
        values := Blank();
      }
    }
  }
}
