/** The recipe handlers: create, list, delete and partial update, each
    scoped to the calling user through `findOne({ _id, userId })`. */
module RecipeController {
  import opened Common
  import opened Store
  import opened RecipeModel
  import Seqs
  import Text

  type Recipe = Row<RecipeDoc>

  /** Every stored recipe passed schema validation. */
  ghost predicate AllValid(rows: seq<Recipe>) {
    forall i :: 0 <= i < |rows| ==> Valid(rows[i].doc)
  }

  /** Appending a valid recipe keeps every stored recipe valid. */
  lemma AllValidAppend(rows: seq<Recipe>, x: Recipe)
    requires AllValid(rows) && Valid(x.doc)
    ensures AllValid(rows + [x])
  {
    assert forall i :: 0 <= i < |rows| ==> (rows + [x])[i] == rows[i];
  }

  /** Replacing a recipe by a valid one keeps every stored recipe valid. */
  lemma AllValidUpdate(rows: seq<Recipe>, i: nat, x: Recipe)
    requires AllValid(rows) && i < |rows| && Valid(x.doc)
    ensures AllValid(rows[i := x])
  {
  }

  /** The body of `POST /api/recipes`. `userId` is whatever owner the
      client may put in the body. */
  datatype SaveBody = SaveBody(
    userId: Option<Id>,
    title: Option<string>,
    ingredients: Option<seq<string>>,
    instructions: Option<seq<string>>,
    source: Option<string>,
    image: Option<string>)

  /** The object `saveRecipe` hands to `Recipe.create`; the owner is set
      separately from the caller. */
  function CreateFields(b: SaveBody): Fields {
    Fields(b.title, None, b.ingredients, b.instructions,
           Some(OrElse(b.image, "")), Some(OrElse(b.source, UserGenerated)))
  }

  /** The body of `PUT /api/recipes/:id`. */
  datatype Patch = Patch(
    title: Option<string>,
    ingredients: Option<seq<string>>,
    instructions: Option<seq<string>>,
    image: Option<string>,
    source: Option<string>)

  /** The document after `updateRecipe`'s field-by-field assignments: only
      the truthy fields of the patch are written (an array, even an empty
      one, is truthy), and the title setter trims. */
  function Patched(d: RecipeDoc, p: Patch): RecipeDoc {
    d.(title := if Truthy(p.title) then Text.Trim(p.title.value) else d.title,
       ingredients := p.ingredients.GetOr(d.ingredients),
       instructions := p.instructions.GetOr(d.instructions),
       image := OrElse(p.image, d.image),
       source := OrElse(p.source, d.source))
  }

  /** Sending the same patch twice has the effect of sending it once. */
  lemma PatchedIdempotent(d: RecipeDoc, p: Patch)
    ensures Patched(Patched(d, p), p) == Patched(d, p)
  {
    if Truthy(p.title) {
      assert Text.IsTrimmed(Text.Trim(p.title.value));
    }
  }

  method SaveRecipe(recipes: Collection<RecipeDoc>, caller: Id, body: SaveBody) returns (reply: Reply<Recipe>)
    requires recipes.Valid() && AllValid(recipes.rows)
    modifies recipes
    ensures recipes.Valid() && AllValid(recipes.rows)
    ensures !Truthy(body.title) || body.ingredients.None? || body.instructions.None? ==>
      reply == Err(400, "Missing required fields")
    ensures reply.Ok? <==>
      Truthy(body.title) && body.ingredients.Some? && body.instructions.Some? && Build(CreateFields(body)).Some?
    ensures reply.Err? ==> reply.status in {400, 500} && recipes.rows == old(recipes.rows)
    ensures reply.Err? && reply.status == 500 ==> reply.message == "Error saving recipe"
    ensures Truthy(body.title) && body.ingredients.Some? && body.instructions.Some? &&
            (body.ingredients.value == [] || body.instructions.value == []) ==>
      reply == Err(500, "Error saving recipe")
    ensures reply.Ok? ==>
      && reply.status == 201
      && recipes.rows == old(recipes.rows) + [reply.value]
      && reply.value.id == old(recipes.next)
      && reply.value.owner == caller
      && reply.value.doc == Build(CreateFields(body)).value
      && reply.value.doc.source == OrElse(body.source, UserGenerated)
      && reply.value.doc.image == OrElse(body.image, "")
      && reply.value.doc.description == ""
  {
    if !Truthy(body.title) || body.ingredients.None? || body.instructions.None? {
      return Err(400, "Missing required fields");
    }
    var doc := Build(CreateFields(body));
    if doc.None? {
      return Err(500, "Error saving recipe");
    }
    AllValidAppend(recipes.rows, Row(recipes.next, caller, recipes.next, doc.value));
    var row := recipes.Create(caller, doc.value);
    reply := Ok(201, row);
  }

  /** `getRecipes`: exactly the caller's recipes, newest first. */
  method GetRecipes(recipes: Collection<RecipeDoc>, caller: Id) returns (list: seq<Recipe>)
    requires recipes.Valid()
    ensures forall r :: r in list <==> r in recipes.rows && r.owner == caller
    ensures forall i, j :: 0 <= i < j < |list| ==> list[i].createdAt > list[j].createdAt
  {
    list := NewestFirst(recipes.rows, caller);
  }

  method DeleteRecipe(recipes: Collection<RecipeDoc>, caller: Id, id: Id) returns (reply: Reply<string>)
    requires recipes.Valid() && AllValid(recipes.rows)
    modifies recipes
    ensures recipes.Valid() && AllValid(recipes.rows)
    ensures reply.Ok? <==> exists i :: 0 <= i < |old(recipes.rows)| && old(recipes.rows)[i].id == id && old(recipes.rows)[i].owner == caller
    ensures reply.Err? ==> reply == Err(404, "Recipe not found") && recipes.rows == old(recipes.rows)
    ensures reply.Ok? ==> reply == Ok(200, "Recipe deleted successfully")
    ensures reply.Ok? ==> forall r :: r in recipes.rows <==> r in old(recipes.rows) && r.id != id
    ensures forall u :: u != caller ==> OwnedBy(recipes.rows, u) == OwnedBy(old(recipes.rows), u)
  {
    var found := FindOwned(recipes.rows, id, caller);
    if found.None? {
      return Err(404, "Recipe not found");
    }
    var i := found.value;
    ghost var before := recipes.rows;
    RemoveExactly(before, i);
    forall u | u != caller ensures OwnedBy(Seqs.RemoveIndex(before, i), u) == OwnedBy(before, u) {
      OwnedByRemoveOther(before, i, u);
    }
    recipes.DeleteAt(i);
    reply := Ok(200, "Recipe deleted successfully");
  }

  method UpdateRecipe(recipes: Collection<RecipeDoc>, caller: Id, id: Id, patch: Patch) returns (reply: Reply<Recipe>)
    requires recipes.Valid() && AllValid(recipes.rows)
    modifies recipes
    ensures recipes.Valid() && AllValid(recipes.rows)
    ensures FindOwned(old(recipes.rows), id, caller).None? ==>
      reply == Err(404, "Recipe not found") && recipes.rows == old(recipes.rows)
    ensures FindOwned(old(recipes.rows), id, caller).Some? ==>
      var i := FindOwned(old(recipes.rows), id, caller).value;
      var d := Patched(old(recipes.rows)[i].doc, patch);
      && (Valid(d) ==> reply == Ok(200, old(recipes.rows)[i].(doc := d)) && recipes.rows == old(recipes.rows)[i := reply.value])
      && (!Valid(d) ==> reply == Err(500, "Error updating recipe") && recipes.rows == old(recipes.rows))
    ensures FindOwned(old(recipes.rows), id, caller).Some? && (patch.ingredients == Some([]) || patch.instructions == Some([])) ==>
      reply == Err(500, "Error updating recipe")
    ensures forall u :: u != caller ==> OwnedBy(recipes.rows, u) == OwnedBy(old(recipes.rows), u)
  {
    var found := FindOwned(recipes.rows, id, caller);
    if found.None? {
      return Err(404, "Recipe not found");
    }
    var i := found.value;
    var d := Patched(recipes.rows[i].doc, patch);
    if !Valid(d) {
      return Err(500, "Error updating recipe");
    }
    ghost var before := recipes.rows;
    forall u | u != caller ensures OwnedBy(before[i := before[i].(doc := d)], u) == OwnedBy(before, u) {
      OwnedByUpdateOther(before, i, before[i].(doc := d), u);
    }
    AllValidUpdate(before, i, before[i].(doc := d));
    recipes.Save(i, d);
    reply := Ok(200, recipes.rows[i]);
  }
}
