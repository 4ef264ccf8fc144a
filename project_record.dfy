/**
  The five text fields of a project, which the add-project page posts and
  the projects page edits in place.
 */
module ProjectRecord {
  datatype ProjectDetails = ProjectDetails(
    main_title: string, subheading: string, location: string, summary: string, image_link: string)

  datatype ProjectField = MainTitle | Subheading | Location | Summary | ImageLink

  /** All five fields empty. */
  const BlankDetails := ProjectDetails("", "", "", "", "")

  function Value(d: ProjectDetails, f: ProjectField): string {
    match f
    case MainTitle => d.main_title
    case Subheading => d.subheading
    case Location => d.location
    case Summary => d.summary
    case ImageLink => d.image_link
  }

  /** `{ ...d, field: value }`: `f` becomes `v`, every other field keeps its value. */
  function Set(d: ProjectDetails, f: ProjectField, v: string): (r: ProjectDetails)
    ensures Value(r, f) == v
    ensures forall g :: g != f ==> Value(r, g) == Value(d, g)
  {
    match f
    case MainTitle => d.(main_title := v)
    case Subheading => d.(subheading := v)
    case Location => d.(location := v)
    case Summary => d.(summary := v)
    case ImageLink => d.(image_link := v)
  }

  /** Two projects are equal exactly when they agree on every field. */
  lemma {:induction false} FieldsDetermine(d: ProjectDetails, e: ProjectDetails)
    requires forall f :: Value(d, f) == Value(e, f)
    ensures d == e
  {
    assert Value(d, MainTitle) == Value(e, MainTitle) && Value(d, Subheading) == Value(e, Subheading);
    assert Value(d, Location) == Value(e, Location) && Value(d, Summary) == Value(e, Summary);
    assert Value(d, ImageLink) == Value(e, ImageLink);
  }

  /** Typing a field's current value back changes nothing, and a later edit
      of the same field overrides an earlier one. */
  lemma SetLaws(d: ProjectDetails, f: ProjectField, v: string, w: string)
    ensures Set(d, f, Value(d, f)) == d
    ensures Set(Set(d, f, v), f, w) == Set(d, f, w)
  {
    FieldsDetermine(Set(d, f, Value(d, f)), d);
    FieldsDetermine(Set(Set(d, f, v), f, w), Set(d, f, w));
  }
}
