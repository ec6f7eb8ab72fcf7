/** The recipe-generation handler: the input check, the preference
    sentence, the prompt text and the assembly of the reply around the
    generated recipe. The language model with its JSON parsing and the
    image search are parameters. */
module AiController {
  import opened Common
  import Seqs
  import Text

  /** A JSON value, as far as the reply needs one. */
  datatype Json =
    | JNull
    | JBool(b: bool)
    | JNum(n: int)
    | JStr(s: string)
    | JArr(items: seq<Json>)
    | JObj(fields: map<string, Json>)

  /** The fields of the request body; None is a missing field. */
  datatype GenerateRequest = GenerateRequest(
    ingredients: Option<string>,
    dietary: Option<string>,
    cuisine: Option<string>,
    cookingTime: Option<string>,
    servings: Option<string>)

  /** `value && \`${prefix}${value}${suffix}\``, with a falsy value kept as
      the empty string. */
  function Labeled(v: Option<string>, prefix: string, suffix: string): (r: string)
    ensures r != "" <==> Truthy(v)
  {
    if Truthy(v) then prefix + v.value + suffix else ""
  }

  /** The four entries of the preference array, in source order. */
  function Candidates(req: GenerateRequest): (r: seq<string>)
    ensures |r| == 4
  {
    [ Labeled(req.dietary, "Dietary: ", ""),
      Labeled(req.cuisine, "Cuisine: ", ""),
      Labeled(req.cookingTime, "Cooking Time: around ", " minutes"),
      Labeled(req.servings, "Servings: ", " people") ]
  }

  function NonEmpty(s: string): bool {
    s != ""
  }

  /** `.filter(Boolean)` on the preference array. */
  function Present(req: GenerateRequest): seq<string> {
    Seqs.Filter(Candidates(req), NonEmpty)
  }

  /** One labelled entry when the field is set, none otherwise. */
  function Part(v: Option<string>, prefix: string, suffix: string): seq<string> {
    if Truthy(v) then [prefix + v.value + suffix] else []
  }

  /** The preference list written out field by field. */
  function Expected(req: GenerateRequest): seq<string> {
    Part(req.dietary, "Dietary: ", "")
    + Part(req.cuisine, "Cuisine: ", "")
    + Part(req.cookingTime, "Cooking Time: around ", " minutes")
    + Part(req.servings, "Servings: ", " people")
  }

  /** The comma-separated preference sentence. */
  function Preferences(req: GenerateRequest): string {
    Text.Join(Present(req), ", ")
  }

  const Intro := "Create a detailed recipe using these ingredients: "

  const Schema :=
    "Return a JSON object with this exact structure:\n{\n"
    + "  \"title\": \"string\",\n"
    + "  \"description\": \"string (50-70 words)\",\n"
    + "  \"cookingTime\": \"string (e.g., '30 minutes')\",\n"
    + "  \"servings\": \"string (e.g., '4 servings')\",\n"
    + "  \"ingredients\": [\"string\"],\n"
    + "  \"instructions\": [\"string\"],\n"
    + "  \"nutritionInfo\": {\n"
    + "    \"calories\": \"string\",\n"
    + "    \"protein\": \"string\",\n"
    + "    \"carbs\": \"string\",\n"
    + "    \"fat\": \"string\"\n"
    + "  }\n}\n"

  /** The line after the ingredients: the preferences, or "none". */
  function PreferenceLine(prefs: string): string {
    "Preferences: " + (if prefs == "" then "none" else prefs) + "."
  }

  /** The prompt sent to the model. */
  function Prompt(ingredients: string, prefs: string): string {
    Intro + (ingredients + (".\n" + (PreferenceLine(prefs) + ("\n" + Schema))))
  }

  /** The filtered array lists exactly the set fields, each with its
      label, in the order Dietary, Cuisine, Cooking Time, Servings. */
  lemma {:induction false} PresentIsExpected(req: GenerateRequest)
    ensures Present(req) == Expected(req)
  {
    var c := Candidates(req);
    var a, b, d, e := [c[0]], [c[1]], [c[2]], [c[3]];
    assert c == ((a + b) + d) + e;
    calc {
      Present(req);
      Seqs.Filter(((a + b) + d) + e, NonEmpty);
      { Seqs.FilterAppend((a + b) + d, e, NonEmpty);
        Seqs.FilterAppend(a + b, d, NonEmpty);
        Seqs.FilterAppend(a, b, NonEmpty); }
      Seqs.Filter(a, NonEmpty) + Seqs.Filter(b, NonEmpty) + Seqs.Filter(d, NonEmpty) + Seqs.Filter(e, NonEmpty);
      { OneEntry(req.dietary, "Dietary: ", "");
        OneEntry(req.cuisine, "Cuisine: ", "");
        OneEntry(req.cookingTime, "Cooking Time: around ", " minutes");
        OneEntry(req.servings, "Servings: ", " people"); }
      Expected(req);
    }
  }

  /** One entry of the array survives the filter exactly when its field
      is set. */
  lemma OneEntry(v: Option<string>, prefix: string, suffix: string)
    ensures Seqs.Filter([Labeled(v, prefix, suffix)], NonEmpty) == Part(v, prefix, suffix)
  {
    assert [Labeled(v, prefix, suffix)][1..] == [];
  }

  /** The preference sentence is empty exactly when no field is set. */
  lemma PreferencesEmptyIff(req: GenerateRequest)
    ensures Preferences(req) == "" <==>
      !Truthy(req.dietary) && !Truthy(req.cuisine) && !Truthy(req.cookingTime) && !Truthy(req.servings)
  {
    Text.JoinEmptyIff(Present(req), ", ");
    PresentIsExpected(req);
  }

  /** A field given as the empty string reads like a missing one. */
  lemma FalsyIsAbsent(req: GenerateRequest, other: GenerateRequest)
    requires Truthy(req.dietary) == Truthy(other.dietary) && (Truthy(req.dietary) ==> req.dietary == other.dietary)
    requires Truthy(req.cuisine) == Truthy(other.cuisine) && (Truthy(req.cuisine) ==> req.cuisine == other.cuisine)
    requires Truthy(req.cookingTime) == Truthy(other.cookingTime)
      && (Truthy(req.cookingTime) ==> req.cookingTime == other.cookingTime)
    requires Truthy(req.servings) == Truthy(other.servings) && (Truthy(req.servings) ==> req.servings == other.servings)
    ensures Preferences(req) == Preferences(other)
  {
    PresentIsExpected(req);
    PresentIsExpected(other);
  }

  /** With all four fields set, the sentence names them in the fixed
      order, separated by ", ". */
  lemma AllFourPreferences(req: GenerateRequest)
    requires Truthy(req.dietary) && Truthy(req.cuisine) && Truthy(req.cookingTime) && Truthy(req.servings)
    ensures Preferences(req)
         == ("Dietary: " + req.dietary.value) + ", "
          + ("Cuisine: " + req.cuisine.value) + ", "
          + ("Cooking Time: around " + req.cookingTime.value + " minutes") + ", "
          + ("Servings: " + req.servings.value + " people")
  {
    PresentIsExpected(req);
    var p := Expected(req);
    var d, c, t, v := req.dietary.value, req.cuisine.value, req.cookingTime.value, req.servings.value;
    assert "Dietary: " + d + "" == "Dietary: " + d;
    assert "Cuisine: " + c + "" == "Cuisine: " + c;
    assert p == ["Dietary: " + d, "Cuisine: " + c, "Cooking Time: around " + t + " minutes", "Servings: " + v + " people"];
    Text.JoinFour(p, ", ");
  }

  /** Where each piece of a text built as `a + (b + (c + (d + (e + f))))`
      sits. */
  lemma PiecesAt(a: string, b: string, c: string, d: string, e: string, f: string)
    ensures var p := a + (b + (c + (d + (e + f))));
      && a <= p
      && Text.OccursAt(p, b, |a|)
      && Text.OccursAt(p, d, |a| + |b| + |c|)
      && Text.OccursAt(p, f, |p| - |f|)
  {
    var p := a + (b + (c + (d + (e + f))));
    assert p[|a|..] == b + (c + (d + (e + f)));
    assert p[|a| + |b| + |c|..] == d + (e + f);
    assert p[|p| - |f|..] == f;
  }

  /** The prompt opens with the fixed sentence, carries the ingredients
      verbatim right after it, then the preference line, and ends with the
      JSON layout. */
  lemma PromptLayout(ingredients: string, prefs: string)
    ensures Intro <= Prompt(ingredients, prefs)
    ensures Text.OccursAt(Prompt(ingredients, prefs), ingredients, |Intro|)
    ensures Text.OccursAt(Prompt(ingredients, prefs), PreferenceLine(prefs), |Intro| + |ingredients| + 2)
    ensures Text.OccursAt(Prompt(ingredients, prefs), Schema, |Prompt(ingredients, prefs)| - |Schema|)
  {
    PiecesAt(Intro, ingredients, ".\n", PreferenceLine(prefs), "\n", Schema);
  }

  /** With no preferences the line reads "Preferences: none.". */
  lemma NoPreferenceLine()
    ensures PreferenceLine("") == "Preferences: none."
  {
  }

  /** Without any preference the prompt says "Preferences: none.". */
  lemma PromptWithoutPreferences(req: GenerateRequest)
    requires Truthy(req.ingredients)
    requires !Truthy(req.dietary) && !Truthy(req.cuisine) && !Truthy(req.cookingTime) && !Truthy(req.servings)
    ensures Text.Includes(Prompt(req.ingredients.value, Preferences(req)), "Preferences: none.")
  {
    PreferencesEmptyIff(req);
    NoPreferenceLine();
    PromptLayout(req.ingredients.value, "");
    assert Text.OccursAt(Prompt(req.ingredients.value, ""), "Preferences: none.", |Intro| + |req.ingredients.value| + 2);
  }

  /** `generateRecipeFromAI`. `complete` stands for the model call with
      `JSON.parse` of its text (None when either fails); `findImage` for
      the image search on the parsed title (None when it finds nothing). */
  function GenerateRecipe(req: GenerateRequest,
                          complete: string -> Option<map<string, Json>>,
                          findImage: Option<Json> -> Option<string>): (r: Reply<map<string, Json>>)
    ensures !Truthy(req.ingredients) ==> r == Err(400, "Ingredients are required.")
    ensures Truthy(req.ingredients) && complete(Prompt(req.ingredients.value, Preferences(req))).None? ==>
      r == Err(500, "An error occurred while generating the recipe.")
    ensures Truthy(req.ingredients) && complete(Prompt(req.ingredients.value, Preferences(req))).Some? ==>
      var recipe := complete(Prompt(req.ingredients.value, Preferences(req))).value;
      var found := findImage(if "title" in recipe then Some(recipe["title"]) else None);
      && r.Ok? && r.status == 200
      && r.value.Keys == recipe.Keys + {"image"}
      && (forall k :: k in recipe && k != "image" ==> r.value[k] == recipe[k])
      && r.value["image"] == (if Truthy(found) then JStr(found.value) else JNull)
  {
    if !Truthy(req.ingredients) then Err(400, "Ingredients are required.")
    else
      var prompt := Prompt(req.ingredients.value, Preferences(req));
      match complete(prompt)
      case None => Err(500, "An error occurred while generating the recipe.")
      case Some(recipe) =>
        var title := if "title" in recipe then Some(recipe["title"]) else None;
        var url := findImage(title);
        var image := if Truthy(url) then JStr(url.value) else JNull;
        Ok(200, recipe["image" := image])
  }
}
