/** The shopping-list screen: adding, toggling (optimistically, with a
    rollback when the server refuses), editing and deleting items, the
    pending/completed filter, the grouping by category and the counts. */
module ShoppingList {
  import opened Common
  import Seqs
  import Text

  /** An item as the client holds it. */
  datatype ClientItem = ClientItem(
    id: Id,
    name: string,
    quantity: Option<string>,
    category: Option<string>,
    bought: bool)

  /** The add-item inputs. */
  datatype NewItem = NewItem(name: string, quantity: string, category: string)

  /** The edit dialog's copy of an item. */
  datatype EditedItem = EditedItem(id: Id, name: string, quantity: string, category: string)

  const BlankNewItem := NewItem("", "", "")

  function ItemId(it: ClientItem): Id {
    it.id
  }

  /** The optimistic list: `bought` set on the items with that id. */
  function Optimistic(items: seq<ClientItem>, id: Id, bought: bool): (r: seq<ClientItem>)
    ensures |r| == |items|
    ensures forall i :: 0 <= i < |items| && items[i].id == id ==> r[i] == items[i].(bought := bought)
    ensures forall i :: 0 <= i < |items| && items[i].id != id ==> r[i] == items[i]
  {
    assert forall i :: 0 <= i < |items| ==> Seqs.KeyIs(ItemId, id)(items[i]) == (items[i].id == id);
    Seqs.MapIf(items, Seqs.KeyIs(ItemId, id), (it: ClientItem) => it.(bought := bought))
  }

  /** When the server answers with the toggled item, the confirmed list is
      the optimistic one. */
  lemma ConfirmMatchesOptimistic(items: seq<ClientItem>, item: ClientItem)
    requires forall i :: 0 <= i < |items| && items[i].id == item.id ==> items[i] == item
    ensures Seqs.ReplaceId(items, ItemId, item.id, item.(bought := !item.bought)) == Optimistic(items, item.id, !item.bought)
  {
  }

  /** The tab filter: 'pending' keeps unbought items, 'completed' bought
      ones, anything else keeps everything. */
  function Keeps(filter: string): ClientItem -> bool {
    (it: ClientItem) => if filter == "pending" then !it.bought else if filter == "completed" then it.bought else true
  }

  /** `filteredItems`. */
  function FilteredItems(items: seq<ClientItem>, filter: string): (r: seq<ClientItem>)
    ensures Seqs.IsSubseq(r, items)
    ensures filter == "pending" ==> forall x :: x in r <==> x in items && !x.bought
    ensures filter == "completed" ==> forall x :: x in r <==> x in items && x.bought
    ensures filter == "pending" ==> forall x :: multiset(r)[x] == if x.bought then 0 else multiset(items)[x]
    ensures filter == "completed" ==> forall x :: multiset(r)[x] == if x.bought then multiset(items)[x] else 0
    ensures filter != "pending" && filter != "completed" ==> r == items
  {
    Seqs.FilterIsSubseq(items, Keeps(filter));
    Seqs.FilterMultiset(items, Keeps(filter));
    if filter != "pending" && filter != "completed" then
      Seqs.FilterKeepsAll(items, Keeps(filter));
      Seqs.Filter(items, Keeps(filter))
    else
      Seqs.Filter(items, Keeps(filter))
  }

  function IsBought(it: ClientItem): bool {
    it.bought
  }

  /** `completedCount`. */
  function CompletedCount(items: seq<ClientItem>): (n: nat)
    ensures n <= |items|
    ensures n == |FilteredItems(items, "completed")|
  {
    Seqs.FilterSame(items, IsBought, Keeps("completed"));
    |Seqs.Filter(items, IsBought)|
  }

  /** The Pending tab's count, total minus completed, is the number of
      items the pending filter shows. */
  lemma {:induction false} PendingCount(items: seq<ClientItem>)
    ensures |FilteredItems(items, "pending")| == |items| - CompletedCount(items)
  {
    Seqs.FilterComplement(items, IsBought, Keeps("pending"));
  }

  /** `item.category || 'Other'`. */
  function CategoryOf(it: ClientItem): (c: string)
    ensures c != ""
    ensures Truthy(it.category) ==> c == it.category.value
    ensures !Truthy(it.category) ==> c == "Other"
  {
    OrElse(it.category, "Other")
  }

  function InCategory(c: string): ClientItem -> bool {
    (it: ClientItem) => CategoryOf(it) == c
  }

  /** The items of category `c`, in list order, as the `reduce` pushes
      them: defined from the last item back. */
  function Members(shown: seq<ClientItem>, c: string): seq<ClientItem> {
    if |shown| == 0 then []
    else
      var last := shown[|shown| - 1];
      Members(shown[..|shown| - 1], c) + (if CategoryOf(last) == c then [last] else [])
  }

  /** An item is in a category's members exactly when it is in the list
      and has that category. */
  lemma {:induction false} MembersSpec(shown: seq<ClientItem>, c: string)
    ensures forall x :: x in Members(shown, c) <==> x in shown && CategoryOf(x) == c
  {
    if |shown| > 0 {
      var init := shown[..|shown| - 1];
      MembersSpec(init, c);
      assert shown == init + [shown[|shown| - 1]];
    }
  }

  /** The members of a category are the items the category filter keeps. */
  lemma {:induction false} MembersIsFilter(shown: seq<ClientItem>, c: string)
    ensures Members(shown, c) == Seqs.Filter(shown, InCategory(c))
  {
    if |shown| > 0 {
      var init, last := shown[..|shown| - 1], shown[|shown| - 1];
      MembersIsFilter(init, c);
      assert shown == init + [last];
      Seqs.FilterAppend(init, [last], InCategory(c));
      Seqs.FilterSingleton(last, InCategory(c));
    }
  }

  /** `keys` and `groups` are the grouping of `shown`: each category
      that occurs has a key and a non-empty group holding its items in
      list order, the keys are distinct, and no other key exists. */
  ghost predicate Grouped(shown: seq<ClientItem>, keys: seq<string>, groups: map<string, seq<ClientItem>>) {
    && (forall c :: c in keys <==> c in groups)
    && (forall i, j :: 0 <= i < j < |keys| ==> keys[i] != keys[j])
    && (forall c :: c in groups ==> groups[c] == Members(shown, c) && groups[c] != [])
    && (forall c :: c !in groups ==> Members(shown, c) == [])
  }

  /** The keys after the `reduce` pushes `item`: its category is added
      when it has no group yet. */
  function NextKeys(keys: seq<string>, groups: map<string, seq<ClientItem>>, item: ClientItem): seq<string> {
    var c := CategoryOf(item);
    if c in groups then keys else keys + [c]
  }

  /** The groups after the `reduce` pushes `item` onto its category's
      group, opened first if it is new. */
  function NextGroups(groups: map<string, seq<ClientItem>>, item: ClientItem): map<string, seq<ClientItem>> {
    var c := CategoryOf(item);
    groups[c := (if c in groups then groups[c] else []) + [item]]
  }

  /** Pushing one item extends exactly its own category's members. */
  lemma MembersPush(shown: seq<ClientItem>, item: ClientItem, d: string)
    ensures Members(shown + [item], d) == Members(shown, d) + (if d == CategoryOf(item) then [item] else [])
  {
    assert (shown + [item])[..|shown|] == shown;
  }

  /** One step of the `reduce` keeps the grouping correct. */
  lemma GroupStep(shown: seq<ClientItem>, keys: seq<string>, groups: map<string, seq<ClientItem>>, item: ClientItem)
    requires Grouped(shown, keys, groups)
    ensures Grouped(shown + [item], NextKeys(keys, groups, item), NextGroups(groups, item))
  {
    var c := CategoryOf(item);
    var keys', groups' := NextKeys(keys, groups, item), NextGroups(groups, item);
    if c !in groups {
      assert c !in keys;
    }
    forall d | d in groups' ensures groups'[d] == Members(shown + [item], d) && groups'[d] != [] {
      MembersPush(shown, item, d);
    }
    forall d | d !in groups' ensures Members(shown + [item], d) == [] {
      MembersPush(shown, item, d);
    }
  }

  /** `GroupStep` for the next item of a list being reduced. */
  lemma GroupStepAt(items: seq<ClientItem>, n: nat, keys: seq<string>, groups: map<string, seq<ClientItem>>)
    requires n < |items| && Grouped(items[..n], keys, groups)
    ensures Grouped(items[..n + 1], NextKeys(keys, groups, items[n]), NextGroups(groups, items[n]))
  {
    GroupStep(items[..n], keys, groups, items[n]);
    assert items[..n + 1] == items[..n] + [items[n]];
  }

  /** The reduce starts from no keys and no groups. */
  lemma GroupedEmpty()
    ensures Grouped([], [], map[])
  {
  }

  /** `groupedItems`. */
  method GroupItems(items: seq<ClientItem>) returns (keys: seq<string>, groups: map<string, seq<ClientItem>>)
    ensures Grouped(items, keys, groups)
  {
    keys, groups := [], map[];
    GroupedEmpty();
    var n := 0;
    while n < |items|
      invariant n <= |items|
      invariant Grouped(items[..n], keys, groups)
    {
      GroupStepAt(items, n, keys, groups);
      keys, groups := NextKeys(keys, groups, items[n]), NextGroups(groups, items[n]);
      n := n + 1;
    }
    assert items[..n] == items;
  }

  /** With nothing shown there are no groups, and with something shown
      there is at least one. */
  lemma GroupsEmptyIff(shown: seq<ClientItem>, keys: seq<string>, groups: map<string, seq<ClientItem>>)
    requires Grouped(shown, keys, groups)
    ensures |keys| == 0 <==> |shown| == 0
  {
    if |shown| > 0 {
      var c := CategoryOf(shown[0]);
      MembersSpec(shown, c);
      assert shown[0] in Members(shown, c);
      assert c in keys;
    }
    if |keys| > 0 {
      assert keys[0] in groups;
    }
  }

  /** Every shown item sits in exactly one group, its own category's. */
  lemma GroupsPartition(shown: seq<ClientItem>, keys: seq<string>, groups: map<string, seq<ClientItem>>, it: ClientItem)
    requires Grouped(shown, keys, groups)
    ensures it in shown <==> CategoryOf(it) in groups && it in groups[CategoryOf(it)]
    ensures forall c :: c in groups && it in groups[c] ==> c == CategoryOf(it)
  {
    MembersSpec(shown, CategoryOf(it));
    forall c | c in groups && it in groups[c] ensures c == CategoryOf(it) {
      MembersSpec(shown, c);
    }
  }

  class ShoppingListState {
    var items: seq<ClientItem>
    var newItem: NewItem
    var editing: Option<EditedItem>
    var loading: bool
    var filter: string

    constructor()
      ensures items == [] && newItem == BlankNewItem && editing.None? && loading && filter == "all"
    {
      items := [];
      newItem := BlankNewItem;
      editing := None;
      loading := true;
      filter := "all";
    }

    /** The items the current tab shows. */
    function Shown(): (r: seq<ClientItem>)
      reads this
      ensures Seqs.IsSubseq(r, items)
      ensures filter == "pending" ==> forall x :: multiset(r)[x] == if x.bought then 0 else multiset(items)[x]
      ensures filter == "completed" ==> forall x :: multiset(r)[x] == if x.bought then multiset(items)[x] else 0
      ensures filter != "pending" && filter != "completed" ==> r == items
    {
      FilteredItems(items, filter)
    }

    /** `fetchShoppingList`; `fetched` is None when the request fails or
        answers with nothing. */
    method FetchShoppingList(fetched: Option<seq<ClientItem>>)
      modifies this
      ensures items == (if fetched.Some? then fetched.value else []) && !loading
      ensures newItem == old(newItem) && editing == old(editing) && filter == old(filter)
    {
      loading := true;
      items := if fetched.Some? then fetched.value else [];
      loading := false;
    }

    /** `handleAddItem`. Nothing is sent when the name is blank; `created`
        is the server's answer, None when the request fails. */
    method HandleAddItem(created: Option<ClientItem>) returns (sent: Option<NewItem>)
      modifies this
      ensures Text.IsBlank(old(newItem.name)) ==> sent.None? && items == old(items) && newItem == old(newItem)
      ensures !Text.IsBlank(old(newItem.name)) ==> sent == Some(old(newItem))
      ensures !Text.IsBlank(old(newItem.name)) && created.Some? ==>
        items == old(items) + [created.value] && newItem == BlankNewItem
      ensures created.None? ==> items == old(items) && newItem == old(newItem)
      ensures editing == old(editing) && loading == old(loading) && filter == old(filter)
    {
      var blank := Text.IsBlank(newItem.name);
      if blank {
        sent := None;
      } else {
        sent := Some(newItem);
        if created.Some? {
          items := items + [created.value];
          newItem := BlankNewItem;
        }
      }
    }

    /** The first half of `handleToggleDone`: the list is updated at once
        and the list as it was is kept for the answer. */
    method BeginToggle(item: ClientItem) returns (original: seq<ClientItem>)
      modifies this
      ensures original == old(items)
      ensures items == Optimistic(old(items), item.id, !item.bought)
      ensures newItem == old(newItem) && editing == old(editing) && loading == old(loading) && filter == old(filter)
    {
      original := items;
      items := Optimistic(items, item.id, !item.bought);
    }

    /** The second half: on success the server's item replaces the
        toggled one in the list as it was; on failure that list comes
        back unchanged. */
    method FinishToggle(original: seq<ClientItem>, id: Id, answer: Option<ClientItem>)
      modifies this
      ensures answer.Some? ==> items == Seqs.ReplaceId(original, ItemId, id, answer.value)
      ensures answer.None? ==> items == original
      ensures newItem == old(newItem) && editing == old(editing) && loading == old(loading) && filter == old(filter)
    {
      if answer.Some? {
        items := Seqs.ReplaceId(original, ItemId, id, answer.value);
      } else {
        items := original;
      }
    }

    /** `handleToggleDone` with the server's answer; a failed request
        leaves the list exactly as it was. */
    method HandleToggleDone(item: ClientItem, answer: Option<ClientItem>)
      modifies this
      ensures answer.None? ==> items == old(items)
      ensures answer.Some? ==> items == Seqs.ReplaceId(old(items), ItemId, item.id, answer.value)
      ensures newItem == old(newItem) && editing == old(editing) && loading == old(loading) && filter == old(filter)
    {
      var original := BeginToggle(item);
      FinishToggle(original, item.id, answer);
    }

    /** `handleDeleteItem`; `deleted` says whether the request succeeded. */
    method HandleDeleteItem(id: Id, deleted: bool)
      modifies this
      ensures items == (if deleted then Seqs.WithoutId(old(items), ItemId, id) else old(items))
      ensures newItem == old(newItem) && editing == old(editing) && loading == old(loading) && filter == old(filter)
    {
      if deleted {
        items := Seqs.WithoutId(items, ItemId, id);
      }
    }

    /** `handleEditItem`. */
    method HandleEditItem(item: ClientItem)
      modifies this
      ensures editing == Some(EditedItem(item.id, item.name, OrElse(item.quantity, ""), OrElse(item.category, "")))
      ensures items == old(items) && newItem == old(newItem) && loading == old(loading) && filter == old(filter)
    {
      editing := Some(EditedItem(item.id, item.name, OrElse(item.quantity, ""), OrElse(item.category, "")));
    }

    /** `handleUpdateItem`; `updated` is the server's answer, None when the
        request fails. Nothing is sent without an item being edited. */
    method HandleUpdateItem(updated: Option<ClientItem>) returns (sent: Option<EditedItem>)
      modifies this
      ensures sent == old(editing)
      ensures old(editing).Some? && updated.Some? ==>
        items == Seqs.ReplaceId(old(items), ItemId, old(editing).value.id, updated.value) && editing.None?
      ensures old(editing).None? || updated.None? ==> items == old(items) && editing == old(editing)
      ensures newItem == old(newItem) && loading == old(loading) && filter == old(filter)
    {
      sent := editing;
      if editing.None? || updated.None? {
        return;
      }
      items := Seqs.ReplaceId(items, ItemId, editing.value.id, updated.value);
      editing := None;
    }

    /** A filter tab. */
    method SetFilter(key: string)
      modifies this
      ensures filter == key
      ensures items == old(items) && newItem == old(newItem) && editing == old(editing) && loading == old(loading)
    {
      filter := key;
    }
  }
}
