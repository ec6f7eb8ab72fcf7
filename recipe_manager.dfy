/** The recipe manager screen: the recipe list with its search filter,
    the add/edit form with its editable ingredient and instruction rows,
    and the handlers that keep the list in step with the server's
    answers. */
module RecipeManager {
  import opened Common
  import Seqs
  import Text

  /** A recipe as the client holds it; fields the server may leave out
      are optional. */
  datatype ClientRecipe = ClientRecipe(
    id: Id,
    title: Option<string>,
    description: Option<string>,
    ingredients: Option<seq<string>>,
    instructions: Option<seq<string>>,
    cookingTime: Option<string>,
    servings: Option<string>,
    cuisine: Option<string>,
    dietary: Option<string>)

  /** The form's fields. */
  datatype FormData = FormData(
    title: string,
    description: string,
    ingredients: seq<string>,
    instructions: seq<string>,
    cookingTime: string,
    servings: string,
    cuisine: string,
    dietary: string)

  /** The two editable lists of the form. */
  datatype ArrayField = Ingredients | Instructions

  /** The blank form: empty texts and one empty row in each list. */
  const EmptyForm := FormData("", "", [""], [""], "", "", "", "")

  /** Both editable lists show at least one row. */
  predicate HasRows(f: FormData) {
    |f.ingredients| >= 1 && |f.instructions| >= 1
  }

  function Rows(f: FormData, field: ArrayField): seq<string> {
    match field
    case Ingredients => f.ingredients
    case Instructions => f.instructions
  }

  function WithRows(f: FormData, field: ArrayField, rows: seq<string>): (g: FormData)
    ensures Rows(g, field) == rows
    ensures field == Ingredients ==> g == f.(ingredients := rows)
    ensures field == Instructions ==> g == f.(instructions := rows)
  {
    match field
    case Ingredients => f.(ingredients := rows)
    case Instructions => f.(instructions := rows)
  }

  /** `list && list.length > 0 ? list : ['']`. */
  function RowsOrBlank(list: Option<seq<string>>): (r: seq<string>)
    ensures |r| >= 1
    ensures list.Some? && |list.value| > 0 ==> r == list.value
    ensures !(list.Some? && |list.value| > 0) ==> r == [""]
  {
    if list.Some? && |list.value| > 0 then list.value else [""]
  }

  /** The form filled from a recipe for editing. */
  function EditForm(r: ClientRecipe): (f: FormData)
    ensures HasRows(f)
    ensures f.title == OrElse(r.title, "") && f.description == OrElse(r.description, "")
    ensures f.ingredients == RowsOrBlank(r.ingredients) && f.instructions == RowsOrBlank(r.instructions)
    ensures f.cookingTime == OrElse(r.cookingTime, "") && f.servings == OrElse(r.servings, "")
    ensures f.cuisine == OrElse(r.cuisine, "") && f.dietary == OrElse(r.dietary, "")
  {
    FormData(OrElse(r.title, ""), OrElse(r.description, ""),
             RowsOrBlank(r.ingredients), RowsOrBlank(r.instructions),
             OrElse(r.cookingTime, ""), OrElse(r.servings, ""),
             OrElse(r.cuisine, ""), OrElse(r.dietary, ""))
  }

  /** `entry && entry.trim()`: the entry has a non-space character. */
  function Filled(entry: string): bool {
    !Text.IsBlank(entry)
  }

  /** The form as sent on save: blank rows dropped, the rest in order. */
  function Clean(f: FormData): (g: FormData)
    ensures Seqs.IsSubseq(g.ingredients, f.ingredients) && Seqs.IsSubseq(g.instructions, f.instructions)
    ensures forall x :: x in g.ingredients <==> x in f.ingredients && !Text.IsBlank(x)
    ensures forall x :: x in g.instructions <==> x in f.instructions && !Text.IsBlank(x)
    ensures forall x :: multiset(g.ingredients)[x] == if Text.IsBlank(x) then 0 else multiset(f.ingredients)[x]
    ensures forall x :: multiset(g.instructions)[x] == if Text.IsBlank(x) then 0 else multiset(f.instructions)[x]
    ensures g.title == f.title && g.description == f.description && g.cookingTime == f.cookingTime
    ensures g.servings == f.servings && g.cuisine == f.cuisine && g.dietary == f.dietary
  {
    Seqs.FilterIsSubseq(f.ingredients, Filled);
    Seqs.FilterIsSubseq(f.instructions, Filled);
    Seqs.FilterMultiset(f.ingredients, Filled);
    Seqs.FilterMultiset(f.instructions, Filled);
    f.(ingredients := Seqs.Filter(f.ingredients, Filled),
       instructions := Seqs.Filter(f.instructions, Filled))
  }

  /** Cleaning an already cleaned form changes nothing. */
  lemma CleanIdempotent(f: FormData)
    ensures Clean(Clean(f)) == Clean(f)
  {
    var g := Clean(f);
    Seqs.FilterKeepsAll(g.ingredients, Filled);
    Seqs.FilterKeepsAll(g.instructions, Filled);
  }

  /** `rows[index] = value` on a copy. */
  function ChangeRow(rows: seq<string>, index: nat, value: string): (r: seq<string>)
    requires index < |rows|
    ensures |r| == |rows| && r[index] == value
    ensures forall j :: 0 <= j < |rows| && j != index ==> r[j] == rows[j]
  {
    rows[index := value]
  }

  /** `removeArrayItem`'s new rows: unchanged when only one row is left,
      otherwise without position `index`. */
  function RemoveRow(rows: seq<string>, index: nat): (r: seq<string>)
    ensures |rows| <= 1 ==> r == rows
    ensures |rows| > 1 && index < |rows| ==> r == rows[..index] + rows[index + 1..]
    ensures |rows| > 1 && index >= |rows| ==> r == rows
    ensures |rows| >= 1 ==> |r| >= 1
  {
    if |rows| <= 1 then rows else Seqs.RemoveIndex(rows, index)
  }

  /** Adding a row and removing it again gives the rows back. */
  lemma AddThenRemoveRow(rows: seq<string>)
    requires |rows| >= 1
    ensures RemoveRow(rows + [""], |rows|) == rows
  {
    assert (rows + [""])[..|rows|] == rows;
  }

  /** `text?.toLowerCase().includes(term.toLowerCase())`. */
  predicate FieldMatches(text: Option<string>, term: string) {
    text.Some? && Text.Includes(Text.Lower(text.value), Text.Lower(term))
  }

  /** The search filter of the recipe list. */
  function MatchesSearch(term: string): ClientRecipe -> bool {
    (r: ClientRecipe) => FieldMatches(r.title, term) || FieldMatches(r.cuisine, term)
  }

  /** `filteredRecipes`. */
  function FilteredRecipes(recipes: seq<ClientRecipe>, term: string): (r: seq<ClientRecipe>)
    ensures Seqs.IsSubseq(r, recipes)
    ensures forall x :: x in r <==> x in recipes && (FieldMatches(x.title, term) || FieldMatches(x.cuisine, term))
    ensures forall x :: multiset(r)[x] == if MatchesSearch(term)(x) then multiset(recipes)[x] else 0
  {
    Seqs.FilterIsSubseq(recipes, MatchesSearch(term));
    Seqs.FilterMultiset(recipes, MatchesSearch(term));
    Seqs.Filter(recipes, MatchesSearch(term))
  }

  /** Lower-casing twice is lower-casing once. */
  lemma LowerIdempotent(s: string)
    ensures Text.Lower(Text.Lower(s)) == Text.Lower(s)
  {
  }

  /** The search does not depend on the case of the term. */
  lemma SearchIgnoresCase(recipes: seq<ClientRecipe>, term: string)
    ensures FilteredRecipes(recipes, Text.Lower(term)) == FilteredRecipes(recipes, term)
  {
    LowerIdempotent(term);
    Seqs.FilterSame(recipes, MatchesSearch(Text.Lower(term)), MatchesSearch(term));
  }

  /** With an empty term every recipe that has a title is listed. */
  lemma EmptySearchListsTitled(recipes: seq<ClientRecipe>)
    requires forall i :: 0 <= i < |recipes| ==> recipes[i].title.Some?
    ensures FilteredRecipes(recipes, "") == recipes
  {
    forall i | 0 <= i < |recipes| ensures MatchesSearch("")(recipes[i]) {
      assert Text.OccursAt(Text.Lower(recipes[i].title.value), Text.Lower(""), 0);
    }
    Seqs.FilterKeepsAll(recipes, MatchesSearch(""));
  }

  function RecipeId(r: ClientRecipe): Id {
    r.id
  }

  class RecipeManagerState {
    var recipes: seq<ClientRecipe>
    var loading: bool
    var searchTerm: string
    var selected: Option<ClientRecipe>
    var editing: Option<ClientRecipe>
    var showAddForm: bool
    var form: FormData

    /** The form always shows at least one ingredient and one
        instruction row. */
    ghost predicate Valid()
      reads this
    {
      HasRows(form)
    }

    constructor()
      ensures Valid()
      ensures recipes == [] && loading && searchTerm == "" && selected.None? && editing.None?
      ensures !showAddForm && form == EmptyForm
    {
      recipes := [];
      loading := true;
      searchTerm := "";
      selected := None;
      editing := None;
      showAddForm := false;
      form := EmptyForm;
    }

    /** The recipes the list shows. */
    function Shown(): (r: seq<ClientRecipe>)
      reads this
      ensures Seqs.IsSubseq(r, recipes)
      ensures forall x :: multiset(r)[x] == if MatchesSearch(searchTerm)(x) then multiset(recipes)[x] else 0
    {
      FilteredRecipes(recipes, searchTerm)
    }

    /** `fetchRecipes`; `fetched` is None when the request fails or
        answers with nothing. */
    method FetchRecipes(fetched: Option<seq<ClientRecipe>>)
      requires Valid()
      modifies this
      ensures Valid()
      ensures recipes == (if fetched.Some? then fetched.value else [])
      ensures !loading
      ensures searchTerm == old(searchTerm) && selected == old(selected) && editing == old(editing)
      ensures showAddForm == old(showAddForm) && form == old(form)
    {
      loading := true;
      recipes := if fetched.Some? then fetched.value else [];
      loading := false;
    }

    /** `handleDelete`; `deleted` says whether the server call succeeded. */
    method HandleDelete(id: Id, deleted: bool)
      requires Valid()
      modifies this
      ensures Valid()
      ensures !deleted ==> recipes == old(recipes) && selected == old(selected)
      ensures deleted ==> recipes == Seqs.WithoutId(old(recipes), RecipeId, id)
      ensures deleted ==> selected == (if old(selected).Some? && old(selected).value.id == id then None else old(selected))
      ensures loading == old(loading) && searchTerm == old(searchTerm) && editing == old(editing)
      ensures showAddForm == old(showAddForm) && form == old(form)
    {
      if !deleted {
        return;
      }
      recipes := Seqs.WithoutId(recipes, RecipeId, id);
      if selected.Some? && selected.value.id == id {
        selected := None;
      }
    }

    /** `handleEdit`. */
    method HandleEdit(recipe: ClientRecipe)
      requires Valid()
      modifies this
      ensures Valid()
      ensures editing == Some(recipe) && form == EditForm(recipe)
      ensures recipes == old(recipes) && loading == old(loading) && searchTerm == old(searchTerm)
      ensures selected == old(selected) && showAddForm == old(showAddForm)
    {
      editing := Some(recipe);
      form := EditForm(recipe);
    }

    /** `handleSave`. The cleaned form is what goes to the server, to the
        update route when a recipe is being edited and to the create route
        otherwise; `saved` is the server's answer, None when it fails. */
    method HandleSave(saved: Option<ClientRecipe>) returns (request: FormData, target: Option<Id>)
      requires Valid()
      modifies this
      ensures Valid()
      ensures request == Clean(old(form))
      ensures target == (if old(editing).Some? then Some(old(editing).value.id) else None)
      ensures saved.None? ==>
        recipes == old(recipes) && selected == old(selected) && editing == old(editing)
        && showAddForm == old(showAddForm) && form == old(form)
      ensures saved.Some? && old(editing).Some? ==> recipes == Seqs.ReplaceId(old(recipes), RecipeId, old(editing).value.id, saved.value)
      ensures saved.Some? && old(editing).None? ==> recipes == old(recipes) + [saved.value]
      ensures saved.Some? ==>
        selected == saved && editing.None? && !showAddForm && form == EmptyForm
      ensures loading == old(loading) && searchTerm == old(searchTerm)
    {
      request := Clean(form);
      target := if editing.Some? then Some(editing.value.id) else None;
      if saved.Some? {
        StoreSaved(saved.value);
      }
    }

    /** The success branch of `handleSave`: the server's recipe replaces
        the edited one or is appended, it becomes the selection, and the
        form closes. */
    method StoreSaved(saved: ClientRecipe)
      modifies this
      ensures Valid()
      ensures old(editing).Some? ==> recipes == Seqs.ReplaceId(old(recipes), RecipeId, old(editing).value.id, saved)
      ensures old(editing).None? ==> recipes == old(recipes) + [saved]
      ensures selected == Some(saved) && editing.None? && !showAddForm && form == EmptyForm
      ensures loading == old(loading) && searchTerm == old(searchTerm)
    {
      if editing.Some? {
        recipes := Seqs.ReplaceId(recipes, RecipeId, editing.value.id, saved);
      } else {
        recipes := recipes + [saved];
      }
      selected := Some(saved);
      editing := None;
      showAddForm := false;
      ResetForm();
    }

    /** `resetForm`. */
    method ResetForm()
      modifies this
      ensures Valid() && form == EmptyForm
      ensures recipes == old(recipes) && loading == old(loading) && searchTerm == old(searchTerm)
      ensures selected == old(selected) && editing == old(editing) && showAddForm == old(showAddForm)
    {
      form := EmptyForm;
    }

    /** `handleArrayChange`; the form only offers indexes of shown rows. */
    method HandleArrayChange(field: ArrayField, index: nat, value: string)
      requires Valid() && index < |Rows(form, field)|
      modifies this
      ensures Valid()
      ensures form == WithRows(old(form), field, ChangeRow(Rows(old(form), field), index, value))
      ensures recipes == old(recipes) && loading == old(loading) && searchTerm == old(searchTerm)
      ensures selected == old(selected) && editing == old(editing) && showAddForm == old(showAddForm)
    {
      var rows := Rows(form, field);
      rows := rows[index := value];
      form := WithRows(form, field, rows);
    }

    /** `addArrayItem`. */
    method AddArrayItem(field: ArrayField)
      requires Valid()
      modifies this
      ensures Valid()
      ensures form == WithRows(old(form), field, Rows(old(form), field) + [""])
      ensures recipes == old(recipes) && loading == old(loading) && searchTerm == old(searchTerm)
      ensures selected == old(selected) && editing == old(editing) && showAddForm == old(showAddForm)
    {
      form := WithRows(form, field, Rows(form, field) + [""]);
    }

    /** `removeArrayItem`. */
    method RemoveArrayItem(field: ArrayField, index: nat)
      requires Valid()
      modifies this
      ensures Valid()
      ensures form == WithRows(old(form), field, RemoveRow(Rows(old(form), field), index))
      ensures |Rows(old(form), field)| <= 1 ==> form == old(form)
      ensures recipes == old(recipes) && loading == old(loading) && searchTerm == old(searchTerm)
      ensures selected == old(selected) && editing == old(editing) && showAddForm == old(showAddForm)
    {
      if |Rows(form, field)| <= 1 {
        return;
      }
      form := WithRows(form, field, RemoveRow(Rows(form, field), index));
    }

    /** The "Add Recipe" button. */
    method OpenAddForm()
      modifies this
      ensures Valid()
      ensures showAddForm && selected.None? && editing.None? && form == EmptyForm
      ensures recipes == old(recipes) && loading == old(loading) && searchTerm == old(searchTerm)
    {
      showAddForm := true;
      selected := None;
      editing := None;
      ResetForm();
    }

    /** The form's cancel button. */
    method CancelForm()
      modifies this
      ensures Valid()
      ensures !showAddForm && editing.None? && form == EmptyForm
      ensures recipes == old(recipes) && loading == old(loading) && searchTerm == old(searchTerm)
      ensures selected == old(selected)
    {
      editing := None;
      showAddForm := false;
      ResetForm();
    }

    /** Clicking a recipe in the list. */
    method SelectRecipe(recipe: ClientRecipe)
      requires Valid()
      modifies this
      ensures Valid()
      ensures selected == Some(recipe) && !showAddForm && editing.None?
      ensures recipes == old(recipes) && loading == old(loading) && searchTerm == old(searchTerm)
      ensures form == old(form)
    {
      selected := Some(recipe);
      showAddForm := false;
      editing := None;
    }

    /** The edit button of a list entry: `handleEdit` and then the
        selection is cleared. */
    method EditButton(recipe: ClientRecipe)
      requires Valid()
      modifies this
      ensures Valid()
      ensures editing == Some(recipe) && form == EditForm(recipe) && selected.None?
      ensures recipes == old(recipes) && loading == old(loading) && searchTerm == old(searchTerm)
      ensures showAddForm == old(showAddForm)
    {
      HandleEdit(recipe);
      selected := None;
    }
  }
}
