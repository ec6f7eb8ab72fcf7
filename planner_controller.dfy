/** The meal-plan handlers: list, upsert by (user, date), and delete.
    The upsert looks for the caller's plan on that date and either
    replaces its recipe in place or creates a new plan, so calls made
    one after another keep at most one plan per user and date. */
module PlannerController {
  import opened Common
  import opened Store
  import Seqs

  /** A plan's date string and the id text of the recipe it refers to. */
  datatype PlanDoc = PlanDoc(date: string, recipe: string)

  type Plan = Row<PlanDoc>

  /** The filter `{ userId: owner, date }`. */
  function SlotIs(owner: Id, date: string): Plan -> bool {
    (p: Plan) => p.owner == owner && p.doc.date == date
  }

  /** `findOne({ userId: owner, date })`. */
  function FindPlan(rows: seq<Plan>, owner: Id, date: string): (r: Option<nat>)
    ensures r.Some? ==> r.value < |rows| && rows[r.value].owner == owner && rows[r.value].doc.date == date
    ensures r.None? <==> forall j :: 0 <= j < |rows| ==> !(rows[j].owner == owner && rows[j].doc.date == date)
  {
    Seqs.IndexWhere(rows, SlotIs(owner, date))
  }

  /** No user has two plans on the same date. */
  ghost predicate OnePlanPerDay(rows: seq<Plan>) {
    forall i, j :: 0 <= i < j < |rows| && rows[i].owner == rows[j].owner ==> rows[i].doc.date != rows[j].doc.date
  }

  /** The collection after a successful `addOrUpdatePlan(date, recipe)` by
      `owner`, with `next` the id the store would hand out. */
  function Upserted(rows: seq<Plan>, next: nat, owner: Id, date: string, recipe: string): (r: seq<Plan>)
    ensures FindPlan(rows, owner, date).Some? ==> |r| == |rows| && |OwnedBy(r, owner)| == |OwnedBy(rows, owner)|
    ensures FindPlan(rows, owner, date).Some? ==>
      var i := FindPlan(rows, owner, date).value; r[i] == rows[i].(doc := PlanDoc(date, recipe))
    ensures FindPlan(rows, owner, date).None? ==>
      r == rows + [Row(next, owner, next, PlanDoc(date, recipe))]
    ensures FindPlan(r, owner, date).Some? && r[FindPlan(r, owner, date).value].doc.recipe == recipe
    ensures forall k :: 0 <= k < |rows| ==>
      r[k].id == rows[k].id && r[k].owner == rows[k].owner && r[k].doc.date == rows[k].doc.date
    ensures forall k :: 0 <= k < |rows| && !(rows[k].owner == owner && rows[k].doc.date == date) ==> r[k] == rows[k]
    ensures OnePlanPerDay(rows) ==> OnePlanPerDay(r)
    ensures forall u :: u != owner ==> OwnedBy(r, u) == OwnedBy(rows, u)
  {
    match FindPlan(rows, owner, date)
    case Some(i) =>
      UpdateInPlace(rows, i, owner, date, recipe);
      SetRecipe(rows, i, recipe)
    case None =>
      AppendNew(rows, next, owner, date, recipe);
      rows + [Row(next, owner, next, PlanDoc(date, recipe))]
  }

  /** The plans with the recipe of the one at position `i` replaced. */
  function SetRecipe(rows: seq<Plan>, i: nat, recipe: string): (r: seq<Plan>)
    requires i < |rows|
    ensures |r| == |rows| && r[i] == rows[i].(doc := PlanDoc(rows[i].doc.date, recipe))
    ensures forall k :: 0 <= k < |rows| ==>
      r[k].id == rows[k].id && r[k].owner == rows[k].owner && r[k].doc.date == rows[k].doc.date
    ensures forall k :: 0 <= k < |rows| && k != i ==> r[k] == rows[k]
  {
    rows[i := rows[i].(doc := rows[i].doc.(recipe := recipe))]
  }

  /** The update branch of the upsert: the found plan gets the new recipe
      and every key stays where it was. */
  lemma UpdateInPlace(rows: seq<Plan>, i: nat, owner: Id, date: string, recipe: string)
    requires FindPlan(rows, owner, date) == Some(i)
    ensures |OwnedBy(SetRecipe(rows, i, recipe), owner)| == |OwnedBy(rows, owner)|
    ensures FindPlan(SetRecipe(rows, i, recipe), owner, date) == Some(i)
    ensures OnePlanPerDay(rows) ==> OnePlanPerDay(SetRecipe(rows, i, recipe))
    ensures forall u :: u != owner ==> OwnedBy(SetRecipe(rows, i, recipe), u) == OwnedBy(rows, u)
  {
    var x := rows[i].(doc := rows[i].doc.(recipe := recipe));
    var r := SetRecipe(rows, i, recipe);
    assert r == rows[i := x];
    OwnedByUpdateSameOwner(rows, i, x, owner);
    forall u | u != owner ensures OwnedBy(r, u) == OwnedBy(rows, u) {
      OwnedByUpdateOther(rows, i, x, u);
    }
    SameSlots(rows, r, owner, date);
  }

  /** The create branch of the upsert: one new plan at the end. */
  lemma AppendNew(rows: seq<Plan>, next: nat, owner: Id, date: string, recipe: string)
    requires FindPlan(rows, owner, date).None?
    ensures var r := rows + [Row(next, owner, next, PlanDoc(date, recipe))];
      && FindPlan(r, owner, date) == Some(|rows|)
      && (forall k :: 0 <= k < |rows| ==> r[k] == rows[k])
      && (OnePlanPerDay(rows) ==> OnePlanPerDay(r))
      && (forall u :: u != owner ==> OwnedBy(r, u) == OwnedBy(rows, u))
  {
    var x := Row(next, owner, next, PlanDoc(date, recipe));
    var r := rows + [x];
    forall u | u != owner ensures OwnedBy(r, u) == OwnedBy(rows, u) {
      OwnedByAppend(rows, x, u);
    }
    assert r[|rows|] == x;
    assert forall j :: 0 <= j < |rows| ==> r[j] == rows[j];
  }

  /** The lookup depends only on the owners and dates of the rows. */
  lemma SameSlots(a: seq<Plan>, b: seq<Plan>, owner: Id, date: string)
    requires |a| == |b|
    requires forall k :: 0 <= k < |a| ==> a[k].owner == b[k].owner && a[k].doc.date == b[k].doc.date
    ensures FindPlan(a, owner, date) == FindPlan(b, owner, date)
  {
  }

  /** Removing a plan keeps at most one plan per user and date. */
  lemma RemoveKeepsOnePlanPerDay(rows: seq<Plan>, i: nat)
    requires i < |rows| && OnePlanPerDay(rows)
    ensures OnePlanPerDay(Seqs.RemoveIndex(rows, i))
  {
    var r := Seqs.RemoveIndex(rows, i);
    forall a, b | 0 <= a < b < |r| && r[a].owner == r[b].owner ensures r[a].doc.date != r[b].doc.date {
      var a', b' := if a < i then a else a + 1, if b < i then b else b + 1;
      assert r[a] == rows[a'] && r[b] == rows[b'];
    }
  }

  /** `getPlanner`: exactly the caller's plans, in collection order. */
  method GetPlanner(plans: Collection<PlanDoc>, caller: Id) returns (list: seq<Plan>)
    requires plans.Valid()
    ensures forall p :: p in list <==> p in plans.rows && p.owner == caller
    ensures Seqs.IsSubseq(list, plans.rows)
    ensures forall p :: multiset(list)[p] == if p.owner == caller then multiset(plans.rows)[p] else 0
  {
    list := OwnedBy(plans.rows, caller);
  }

  method AddOrUpdatePlan(plans: Collection<PlanDoc>, caller: Id, date: Option<string>, recipeId: Option<string>)
    returns (reply: Reply<Plan>)
    requires plans.Valid()
    modifies plans
    ensures plans.Valid()
    ensures !Truthy(date) || !Truthy(recipeId) ==>
      reply == Err(400, "Missing date or recipeId") && plans.rows == old(plans.rows)
    ensures Truthy(date) && Truthy(recipeId) ==>
      && plans.rows == Upserted(old(plans.rows), old(plans.next), caller, date.value, recipeId.value)
      && reply.Ok?
      && reply.status == (if FindPlan(old(plans.rows), caller, date.value).Some? then 200 else 201)
      && reply.value == plans.rows[FindPlan(plans.rows, caller, date.value).value]
    ensures OnePlanPerDay(old(plans.rows)) ==> OnePlanPerDay(plans.rows)
  {
    if !Truthy(date) || !Truthy(recipeId) {
      return Err(400, "Missing date or recipeId");
    }
    ghost var before := plans.rows;
    var existing := FindPlan(plans.rows, caller, date.value);
    if existing.Some? {
      var i := existing.value;
      UpdateInPlace(before, i, caller, date.value, recipeId.value);
      assert Upserted(before, plans.next, caller, date.value, recipeId.value) == SetRecipe(before, i, recipeId.value);
      plans.Save(i, plans.rows[i].doc.(recipe := recipeId.value));
      assert plans.rows == SetRecipe(before, i, recipeId.value);
      reply := Ok(200, plans.rows[i]);
    } else {
      AppendNew(before, plans.next, caller, date.value, recipeId.value);
      var plan := plans.Create(caller, PlanDoc(date.value, recipeId.value));
      reply := Ok(201, plan);
    }
  }

  method DeletePlan(plans: Collection<PlanDoc>, caller: Id, id: Id) returns (reply: Reply<string>)
    requires plans.Valid()
    modifies plans
    ensures plans.Valid()
    ensures reply.Ok? <==> FindOwned(old(plans.rows), id, caller).Some?
    ensures reply.Err? ==> reply == Err(404, "Plan not found") && plans.rows == old(plans.rows)
    ensures reply.Ok? ==> reply == Ok(200, "Plan deleted")
    ensures reply.Ok? ==> forall p :: p in plans.rows <==> p in old(plans.rows) && p.id != id
    ensures OnePlanPerDay(old(plans.rows)) ==> OnePlanPerDay(plans.rows)
    ensures forall u :: u != caller ==> OwnedBy(plans.rows, u) == OwnedBy(old(plans.rows), u)
  {
    var found := FindOwned(plans.rows, id, caller);
    if found.None? {
      return Err(404, "Plan not found");
    }
    var i := found.value;
    ghost var before := plans.rows;
    RemoveExactly(before, i);
    if OnePlanPerDay(before) {
      RemoveKeepsOnePlanPerDay(before, i);
    }
    forall u | u != caller ensures OwnedBy(Seqs.RemoveIndex(before, i), u) == OwnedBy(before, u) {
      OwnedByRemoveOther(before, i, u);
    }
    plans.DeleteAt(i);
    reply := Ok(200, "Plan deleted");
  }
}
