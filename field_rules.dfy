/**
  The three zod field schemas the product forms use, and what each one
  accepts of a field value.
 */
module FieldRules {
  import opened Maybe
  import opened ProductRecord

  datatype Rule =
    | RequiredString  // z.string().min(1): a string of at least one character
    | AnyString       // z.string(): any string, the empty one included
    | NullableString  // z.string().nullable(): any string, or null

  predicate Accepts(rule: Rule, v: Cell) {
    match rule
    case RequiredString => v.Some? && |v.value| >= 1
    case AnyString => v.Some?
    case NullableString => true
  }

  /** A form object passes `z.object(schema)` when every column passes its rule. */
  predicate Conforms(schema: Column -> Rule, v: ProductBase) {
    forall c :: Accepts(schema(c), Value(v, c))
  }

  /** The `.min(1)` test: present and not empty. */
  predicate Filled(v: Cell) {
    v.Some? && v.value != ""
  }

  /** Every column holds a string. The form inputs only ever produce
      strings, and the edit form seeds itself through `value ?? ""`. */
  predicate AllStrings(v: ProductBase) {
    forall c :: Value(v, c).Some?
  }

  /** The five columns both forms mark required (code, main and sub
      category, brand, model) are filled. */
  predicate RequiredFilled(v: ProductBase) {
    Filled(v.code) && Filled(v.main_cat) && Filled(v.sub_cat) && Filled(v.brand) && Filled(v.model)
  }
}
