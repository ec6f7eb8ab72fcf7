/** The shopping-list handlers: list, add, toggle, delete, and bulk-add
    from one of the caller's recipes. Only `name` and the owner are ever
    stored; `bought` starts false. */
module ShoppingController {
  import opened Common
  import opened Store
  import RecipeModel
  import Seqs

  datatype ItemDoc = ItemDoc(name: string, bought: bool)

  type ShoppingItem = Row<ItemDoc>

  /** The item schema requires a non-empty name. */
  predicate ValidItem(d: ItemDoc) {
    d.name != ""
  }

  /** `recipe.ingredients.map(ing => ({ name: ing, userId }))`, with the
      schema default `bought: false`. */
  function IngredientItems(ingredients: seq<string>): (r: seq<ItemDoc>)
    ensures |r| == |ingredients|
    ensures forall k :: 0 <= k < |r| ==> r[k] == ItemDoc(ingredients[k], false)
  {
    seq(|ingredients|, k requires 0 <= k < |ingredients| => ItemDoc(ingredients[k], false))
  }

  /** The collection after flipping `bought` on the row at position `i`. */
  function Toggled(rows: seq<ShoppingItem>, i: nat): (r: seq<ShoppingItem>)
    requires i < |rows|
    ensures |r| == |rows|
    ensures r[i].doc.bought == !rows[i].doc.bought
    ensures r[i] == rows[i].(doc := rows[i].doc.(bought := r[i].doc.bought))
    ensures forall j :: 0 <= j < |rows| && j != i ==> r[j] == rows[j]
  {
    rows[i := rows[i].(doc := rows[i].doc.(bought := !rows[i].doc.bought))]
  }

  /** Toggling keeps ids and owners, so the owner-scoped lookup finds the
      same row again, and a second toggle restores the collection. */
  lemma ToggleTwice(rows: seq<ShoppingItem>, id: Id, owner: Id)
    requires FindOwned(rows, id, owner).Some?
    ensures FindOwned(Toggled(rows, FindOwned(rows, id, owner).value), id, owner) == FindOwned(rows, id, owner)
    ensures var i := FindOwned(rows, id, owner).value; Toggled(Toggled(rows, i), i) == rows
  {
    var i := FindOwned(rows, id, owner).value;
    var t := Toggled(rows, i);
    FindOwnedSameKeys(rows, t, id, owner);
  }

  /** The lookup depends only on the ids and owners of the rows. */
  lemma FindOwnedSameKeys<D>(a: seq<Row<D>>, b: seq<Row<D>>, id: Id, owner: Id)
    requires |a| == |b|
    requires forall k :: 0 <= k < |a| ==> a[k].id == b[k].id && a[k].owner == b[k].owner
    ensures FindOwned(a, id, owner) == FindOwned(b, id, owner)
  {
  }

  /** `getShoppingList`: exactly the caller's items, newest first. */
  method GetShoppingList(items: Collection<ItemDoc>, caller: Id) returns (list: seq<ShoppingItem>)
    requires items.Valid()
    ensures forall r :: r in list <==> r in items.rows && r.owner == caller
    ensures forall i, j :: 0 <= i < j < |list| ==> list[i].createdAt > list[j].createdAt
  {
    list := NewestFirst(items.rows, caller);
  }

  method AddItem(items: Collection<ItemDoc>, caller: Id, name: Option<string>) returns (reply: Reply<ShoppingItem>)
    requires items.Valid()
    modifies items
    ensures items.Valid()
    ensures !Truthy(name) ==> reply == Err(400, "Item name is required") && items.rows == old(items.rows)
    ensures Truthy(name) ==>
      && reply.Ok? && reply.status == 201
      && reply.value == Row(old(items.next), caller, old(items.next), ItemDoc(name.value, false))
      && items.rows == old(items.rows) + [reply.value]
  {
    if !Truthy(name) {
      return Err(400, "Item name is required");
    }
    var row := items.Create(caller, ItemDoc(name.value, false));
    reply := Ok(201, row);
  }

  method ToggleItem(items: Collection<ItemDoc>, caller: Id, id: Id) returns (reply: Reply<ShoppingItem>)
    requires items.Valid()
    modifies items
    ensures items.Valid()
    ensures FindOwned(old(items.rows), id, caller).None? ==>
      reply == Err(404, "Item not found") && items.rows == old(items.rows)
    ensures FindOwned(old(items.rows), id, caller).Some? ==>
      var i := FindOwned(old(items.rows), id, caller).value;
      && items.rows == Toggled(old(items.rows), i)
      && reply == Ok(200, items.rows[i])
    ensures forall u :: u != caller ==> OwnedBy(items.rows, u) == OwnedBy(old(items.rows), u)
  {
    var found := FindOwned(items.rows, id, caller);
    if found.None? {
      return Err(404, "Item not found");
    }
    var i := found.value;
    var d := items.rows[i].doc;
    d := d.(bought := !d.bought);
    ghost var before := items.rows;
    forall u | u != caller ensures OwnedBy(before[i := before[i].(doc := d)], u) == OwnedBy(before, u) {
      OwnedByUpdateOther(before, i, before[i].(doc := d), u);
    }
    items.Save(i, d);
    reply := Ok(200, items.rows[i]);
  }

  /** Two toggle requests for the same item leave the list as it was. */
  method ToggleItemTwice(items: Collection<ItemDoc>, caller: Id, id: Id) returns (first: Reply<ShoppingItem>, second: Reply<ShoppingItem>)
    requires items.Valid()
    modifies items
    ensures items.Valid()
    ensures items.rows == old(items.rows)
    ensures FindOwned(old(items.rows), id, caller).None? ==> first.Err? && second.Err?
    ensures FindOwned(old(items.rows), id, caller).Some? ==>
      && first.Ok? && second.Ok?
      && first.value.doc.bought != second.value.doc.bought
      && second.value == old(items.rows)[FindOwned(old(items.rows), id, caller).value]
  {
    ghost var before := items.rows;
    if FindOwned(before, id, caller).Some? {
      ToggleTwice(before, id, caller);
    }
    first := ToggleItem(items, caller, id);
    second := ToggleItem(items, caller, id);
  }

  method DeleteItem(items: Collection<ItemDoc>, caller: Id, id: Id) returns (reply: Reply<string>)
    requires items.Valid()
    modifies items
    ensures items.Valid()
    ensures reply.Ok? <==> FindOwned(old(items.rows), id, caller).Some?
    ensures reply.Err? ==> reply == Err(404, "Item not found") && items.rows == old(items.rows)
    ensures reply.Ok? ==> reply == Ok(200, "Item deleted")
    ensures reply.Ok? ==> forall r :: r in items.rows <==> r in old(items.rows) && r.id != id
    ensures forall u :: u != caller ==> OwnedBy(items.rows, u) == OwnedBy(old(items.rows), u)
  {
    var found := FindOwned(items.rows, id, caller);
    if found.None? {
      return Err(404, "Item not found");
    }
    var i := found.value;
    ghost var before := items.rows;
    RemoveExactly(before, i);
    forall u | u != caller ensures OwnedBy(Seqs.RemoveIndex(before, i), u) == OwnedBy(before, u) {
      OwnedByRemoveOther(before, i, u);
    }
    items.DeleteAt(i);
    reply := Ok(200, "Item deleted");
  }

  /** `addRecipeToList`: one new item per ingredient of the caller's
      recipe, in ingredient order. `insertMany` validates every item
      first, so an empty ingredient name makes the whole call fail. */
  method AddRecipeToList(recipes: Collection<RecipeModel.RecipeDoc>, items: Collection<ItemDoc>, caller: Id, recipeId: Id)
    returns (reply: Reply<seq<ShoppingItem>>)
    requires items.Valid()
    modifies items
    ensures items.Valid()
    ensures FindOwned(recipes.rows, recipeId, caller).None? ==>
      reply == Err(404, "Recipe not found") && items.rows == old(items.rows)
    ensures FindOwned(recipes.rows, recipeId, caller).Some? ==>
      var ingredients := recipes.rows[FindOwned(recipes.rows, recipeId, caller).value].doc.ingredients;
      if exists k :: 0 <= k < |ingredients| && ingredients[k] == "" then
        reply == Err(500, "Failed to add from recipe")
      else
        && reply.Ok? && reply.status == 201
        && items.rows == old(items.rows) + reply.value
        && |reply.value| == |ingredients|
        && forall k :: 0 <= k < |ingredients| ==>
             reply.value[k].owner == caller && reply.value[k].doc == ItemDoc(ingredients[k], false)
    ensures reply.Err? && reply.status == 500 ==> reply.message == "Failed to add from recipe" && items.rows == old(items.rows)
    ensures forall u :: u != caller ==> OwnedBy(items.rows, u) == OwnedBy(old(items.rows), u)
  {
    var found := FindOwned(recipes.rows, recipeId, caller);
    if found.None? {
      return Err(404, "Recipe not found");
    }
    var docs := IngredientItems(recipes.rows[found.value].doc.ingredients);
    if exists k :: 0 <= k < |docs| && !ValidItem(docs[k]) {
      return Err(500, "Failed to add from recipe");
    }
    ghost var before := items.rows;
    var inserted := items.InsertMany(caller, docs);
    forall u | u != caller ensures OwnedBy(before + inserted, u) == OwnedBy(before, u) {
      OwnedByAppendOthers(before, inserted, u);
    }
    reply := Ok(201, inserted);
  }
}
