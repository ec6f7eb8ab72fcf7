/** The recipe schema: which fields are required, their defaults, the
    trimming setters and the non-empty list validators. `Build` is the
    document `Recipe.create` or `save` stores, or `None` when validation
    rejects it. */
module RecipeModel {
  import opened Common
  import Text

  const AIGenerated: string := "AI-generated"
  const UserGenerated: string := "user-generated"

  datatype RecipeDoc = RecipeDoc(
    title: string,
    description: string,
    ingredients: seq<string>,
    instructions: seq<string>,
    image: string,
    source: string)

  /** A document the schema accepts: a non-empty trimmed title, a trimmed
      description, at least one ingredient and one instruction, and a
      source from the enumeration. */
  predicate Valid(d: RecipeDoc) {
    && d.title != "" && Text.IsTrimmed(d.title)
    && Text.IsTrimmed(d.description)
    && |d.ingredients| > 0
    && |d.instructions| > 0
    && (d.source == AIGenerated || d.source == UserGenerated)
  }

  /** The fields handed to the schema; `None` is `undefined`. */
  datatype Fields = Fields(
    title: Option<string>,
    description: Option<string>,
    ingredients: Option<seq<string>>,
    instructions: Option<seq<string>>,
    image: Option<string>,
    source: Option<string>)

  /** Casting and validation: absent fields take their defaults (an empty
      title or list, `""` for description and image, `"AI-generated"` for
      source), title and description are trimmed, and the result is kept
      only if it is valid. */
  function Build(f: Fields): (r: Option<RecipeDoc>)
    ensures r.Some? ==> Valid(r.value)
    ensures r.Some? <==>
      && f.title.Some? && !Text.AllSpace(f.title.value)
      && f.ingredients.Some? && |f.ingredients.value| > 0
      && f.instructions.Some? && |f.instructions.value| > 0
      && (f.source.None? || f.source.value == AIGenerated || f.source.value == UserGenerated)
    ensures r.Some? ==>
      && r.value.title == Text.Trim(f.title.value)
      && r.value.description == Text.Trim(f.description.GetOr(""))
      && r.value.ingredients == f.ingredients.value
      && r.value.instructions == f.instructions.value
      && r.value.image == f.image.GetOr("")
      && r.value.source == f.source.GetOr(AIGenerated)
  {
    var d := RecipeDoc(
      Text.Trim(f.title.GetOr("")),
      Text.Trim(f.description.GetOr("")),
      f.ingredients.GetOr([]),
      f.instructions.GetOr([]),
      f.image.GetOr(""),
      f.source.GetOr(AIGenerated));
    if Valid(d) then Some(d) else None
  }
}
