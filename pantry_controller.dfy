/** The pantry handlers: one ingredient list per user, read back whole
    and replaced whole by an upsert. */
module PantryController {
  import opened Common
  import opened Store
  import Seqs

  /** A pantry document holds the owner's ingredient list. */
  type Pantry = Row<seq<string>>

  /** `findOne({ userId: owner })`. */
  function FindPantry(rows: seq<Pantry>, owner: Id): (r: Option<nat>)
    ensures r.Some? ==> r.value < |rows| && rows[r.value].owner == owner
    ensures r.Some? ==> forall j :: 0 <= j < r.value ==> rows[j].owner != owner
    ensures r.None? <==> forall j :: 0 <= j < |rows| ==> rows[j].owner != owner
  {
    Seqs.IndexWhere(rows, OwnerIs(owner))
  }

  /** No user has two pantries. */
  ghost predicate OnePantryPerUser(rows: seq<Pantry>) {
    forall i, j :: 0 <= i < j < |rows| ==> rows[i].owner != rows[j].owner
  }

  /** The collection after `findOneAndUpdate({ userId: owner }, { ingredients },
      { upsert: true })`, with `next` the id the store would hand out. */
  function Upserted(rows: seq<Pantry>, next: nat, owner: Id, ingredients: seq<string>): (r: seq<Pantry>)
    ensures FindPantry(r, owner).Some? && r[FindPantry(r, owner).value].doc == ingredients
    ensures FindPantry(rows, owner).Some? ==> |r| == |rows|
    ensures FindPantry(rows, owner).Some? ==>
      var i := FindPantry(rows, owner).value; r[i] == rows[i].(doc := ingredients)
    ensures FindPantry(rows, owner).None? ==> r == rows + [Row(next, owner, next, ingredients)]
    ensures forall k :: 0 <= k < |rows| ==> r[k].id == rows[k].id && r[k].owner == rows[k].owner
    ensures OnePantryPerUser(rows) ==> OnePantryPerUser(r)
    ensures forall u :: u != owner ==> OwnedBy(r, u) == OwnedBy(rows, u)
  {
    match FindPantry(rows, owner)
    case Some(i) =>
      var x := rows[i].(doc := ingredients);
      var r := rows[i := x];
      assert forall u :: u != owner ==> OwnedBy(r, u) == OwnedBy(rows, u) by {
        forall u | u != owner ensures OwnedBy(r, u) == OwnedBy(rows, u) {
          OwnedByUpdateOther(rows, i, x, u);
        }
      }
      SameOwners(rows, r, owner);
      r
    case None =>
      var x := Row(next, owner, next, ingredients);
      assert forall u :: u != owner ==> OwnedBy(rows + [x], u) == OwnedBy(rows, u) by {
        forall u | u != owner ensures OwnedBy(rows + [x], u) == OwnedBy(rows, u) {
          OwnedByAppend(rows, x, u);
        }
      }
      var r := rows + [x];
      assert r[|rows|] == x;
      assert forall j :: 0 <= j < |rows| ==> r[j] == rows[j];
      r
  }

  /** The lookup depends only on the owners of the rows. */
  lemma SameOwners(a: seq<Pantry>, b: seq<Pantry>, owner: Id)
    requires |a| == |b|
    requires forall k :: 0 <= k < |a| ==> a[k].owner == b[k].owner
    ensures FindPantry(a, owner) == FindPantry(b, owner)
  {
  }

  method GetPantry(pantries: Collection<seq<string>>, caller: Id) returns (reply: Reply<seq<string>>)
    ensures reply.Ok? <==> FindPantry(pantries.rows, caller).Some?
    ensures reply.Err? ==> reply == Err(404, "Pantry not found")
    ensures reply.Ok? ==> reply == Ok(200, pantries.rows[FindPantry(pantries.rows, caller).value].doc)
  {
    var found := FindPantry(pantries.rows, caller);
    if found.None? {
      return Err(404, "Pantry not found");
    }
    reply := Ok(200, pantries.rows[found.value].doc);
  }

  /** `updatePantry`; `ingredients` is None when the body's value is not
      an array. */
  method UpdatePantry(pantries: Collection<seq<string>>, caller: Id, ingredients: Option<seq<string>>)
    returns (reply: Reply<seq<string>>)
    requires pantries.Valid()
    modifies pantries
    ensures pantries.Valid()
    ensures ingredients.None? ==>
      reply == Err(400, "Ingredients must be an array") && pantries.rows == old(pantries.rows)
    ensures ingredients.Some? ==>
      && pantries.rows == Upserted(old(pantries.rows), old(pantries.next), caller, ingredients.value)
      && reply == Ok(200, ingredients.value)
  {
    if ingredients.None? {
      return Err(400, "Ingredients must be an array");
    }
    var found := FindPantry(pantries.rows, caller);
    if found.Some? {
      pantries.Save(found.value, ingredients.value);
      reply := Ok(200, pantries.rows[found.value].doc);
    } else {
      var pantry := pantries.Create(caller, ingredients.value);
      reply := Ok(200, pantry.doc);
    }
  }

  /** A client that stores a list and reads its pantry back gets that
      list. */
  method UpdateThenGet(pantries: Collection<seq<string>>, caller: Id, list: seq<string>)
    returns (put: Reply<seq<string>>, got: Reply<seq<string>>)
    requires pantries.Valid()
    modifies pantries
    ensures pantries.Valid()
    ensures put == Ok(200, list) && got == Ok(200, list)
  {
    put := UpdatePantry(pantries, caller, Some(list));
    got := GetPantry(pantries, caller);
  }
}
