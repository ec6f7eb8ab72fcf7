# AI recipe planner — a verified model of its core

This project models the core of a small meal-planning web application in
Dafny. The application has an Express server and a React client.

- **Server.** Recipes, shopping-list items, meal plans, pantries and users are
  stored per user. Every read or change goes through a lookup scoped to the
  calling user. The server also builds the prompt for the recipe generator
  and assembles that generator's reply.
- **Client.** The screens keep lists in step with the server's answers:
  - the recipe manager, with its search, its form and the form's editable rows;
  - the shopping list, with optimistic toggling, tab filters and category groups;
  - the meal-planner calendar;
  - the application shell, which restores the session and picks the page.

The document database is an in-memory collection (`Store.Collection`):
- Rows carry an id, an owner and a creation stamp. Ids and stamps come from
  one increasing counter.
- Schema validation is the predicate `RecipeModel.Valid`, plus the
  non-empty-name rule for shopping items.
- Everything outside the program is a parameter: password hashing, token
  generation, the language model, the image search, `JSON.parse`, dates,
  and whether a client request succeeded.

Modules: `Common` (options, replies, JavaScript truthiness), `Seqs` (filter,
find, map and id-keyed list helpers), `Text` (trim, lower-case, includes,
join), `Store`, `RecipeModel`, one module per server controller
(`RecipeController`, `ShoppingController`, `PlannerController`,
`PantryController`, `AuthController`, `AiController`), and one per client
component (`RecipeManager`, `ShoppingList`, `MealPlanner`, `App`).

## Model

| member | source | states |
|---|---|---|
| Common.OrElse | server/controllers/recipeController.js:72-73 | a field written only when truthy: the result is the value when it is a non-empty string and the fallback otherwise |
| Text.Join | server/controllers/aiController.js:30 | joining no parts gives the empty string, and a join starts with its first part |
| Text.JoinSnoc | server/controllers/aiController.js:30 | joining one more part appends the separator and that part, so the separator sits between neighbouring parts only |
| Text.Trim | server/models/Recipe.js:9-13 | the trimmed text is the input with all white space at both ends removed: a contiguous piece of the input, preceded and followed only by white space, with no white space at either of its own ends; it is empty exactly when the input is all white space, and already-trimmed text is left alone |
| Text.Includes | project/src/components/RecipeManager.jsx:125-126 | `includes` holds exactly when the term occurs at some position of the text |
| Text.Lower | project/src/components/RecipeManager.jsx:125-126 | lower-casing keeps the length and maps each character on its own |
| Text.JoinEmptyIff | server/controllers/aiController.js:30 | joining non-empty parts gives the empty string only when there are no parts |
| Seqs.WithoutId | project/src/components/RecipeManager.jsx:45 | removing by id gives an ordered sub-list holding every copy of each record with another id and no record with that id, which by `FilterUnique` is exactly those records in order |
| Seqs.FilterMultiset | project/src/components/RecipeManager.jsx:45 | `filter` keeps every copy of an element that passes and no copy of one that fails |
| Seqs.FilterUnique | project/src/components/RecipeManager.jsx:45 | an ordered sub-list with exactly those copies can only be the filter's result, so the sub-list and counting contracts of the filtering members determine their results |
| Seqs.ReplaceId | project/src/components/RecipeManager.jsx:77-79 | replacing by id changes exactly the positions holding that id, keeps the length and puts the new record there |
| Seqs.ReplaceIdTouchesOnlyThatId | project/src/components/ShoppingList.jsx:91-93 | with the edited id taken out, a list after an update under the same id equals the list before |
| Seqs.RemoveIndex | project/src/components/RecipeManager.jsx:121 | filtering out position i drops exactly that position when it exists and changes nothing otherwise |
| Store.FindOwned | server/controllers/recipeController.js:44 | the owner-scoped lookup finds the first row with that id and owner, and finds nothing exactly when no such row exists |
| Store.OwnedBy | server/controllers/plannerController.js:5 | `find({ userId })` gives an ordered sub-list holding every copy of each row of that owner and no other row, which by `FilterUnique` is exactly the owner's rows in order |
| Store.Stamped | server/controllers/shoppingController.js:56-57 | the rows a bulk insert creates: one per document, in order, with consecutive fresh ids and stamps |
| Store.ReverseNewestFirst | server/controllers/recipeController.js:32 | reversing rows in creation order keeps the same rows and puts them in strictly decreasing creation order |
| Store.NewestFirst | server/controllers/recipeController.js:32 | listing gives exactly the owner's rows, with creation stamps strictly decreasing |
| Store.OwnedByUpdateOther | server/controllers/recipeController.js:63-75 | changing a row of one user leaves every other user's rows unchanged |
| Store.OwnedByRemoveOther | server/controllers/recipeController.js:44-50 | deleting a row of one user leaves every other user's rows unchanged |
| Store.RemoveExactly | server/controllers/recipeController.js:50 | deleting the row at a position removes exactly the row with that id and keeps all others |
| Store.Collection.Create | server/controllers/recipeController.js:14-21 | a create appends one row with a fresh id and stamp and keeps ids and stamps increasing |
| Store.Collection.InsertMany | server/controllers/shoppingController.js:57 | a bulk insert appends one fresh row per document, in order |
| Store.Collection.Save | server/controllers/recipeController.js:75 | a save replaces the document of that row and nothing else |
| Store.Collection.DeleteAt | server/controllers/recipeController.js:50 | a delete removes that row and keeps the others in order |
| RecipeModel.Build | server/models/Recipe.js:3-38 | a document is stored exactly when the title is present and not blank, both lists are present and non-empty, and the source is absent or allowed; what is stored is the trimmed title and description, the lists, image default "" and source default "AI-generated", and it is valid |
| RecipeController.SaveRecipe | server/controllers/recipeController.js:6-27 | a missing title or list gives 400 and changes nothing; a record the schema refuses (an empty list, a blank title) gives 500 and changes nothing; otherwise 201 with a new row owned by the caller, whatever owner the body names, source defaulting to "user-generated" and image to "" |
| RecipeController.GetRecipes | server/controllers/recipeController.js:30-37 | exactly the caller's recipes, newest first |
| RecipeController.DeleteRecipe | server/controllers/recipeController.js:40-55 | 404 and no change unless the caller owns a recipe with that id; otherwise exactly that recipe is removed; other users' recipes never change |
| RecipeController.UpdateRecipe | server/controllers/recipeController.js:58-80 | 404 and no change without an owned match; otherwise only the truthy patch fields are written (the title trimmed), and an invalid result gives 500 with nothing saved; other users' recipes never change |
| RecipeController.AllValidAppend | server/controllers/recipeController.js:14-21 | storing a recipe that passed validation keeps every stored recipe valid |
| RecipeController.PatchedIdempotent | server/controllers/recipeController.js:69-73 | applying the same patch twice has the effect of applying it once |
| ShoppingController.IngredientItems | server/controllers/shoppingController.js:56 | one unbought item per ingredient, in ingredient order |
| ShoppingController.Toggled | server/controllers/shoppingController.js:30 | a toggle flips `bought` on that row and changes nothing else |
| ShoppingController.ToggleTwice | server/controllers/shoppingController.js:27-31 | after a toggle the scoped lookup finds the same row, and toggling it again restores the collection |
| ShoppingController.GetShoppingList | server/controllers/shoppingController.js:4-11 | exactly the caller's items, newest first |
| ShoppingController.AddItem | server/controllers/shoppingController.js:13-23 | a missing or empty name gives 400 and no change; otherwise 201 with a new unbought item owned by the caller, appended |
| ShoppingController.ToggleItem | server/controllers/shoppingController.js:25-36 | 404 and no change without an owned match; otherwise that item's `bought` flips and the reply is the updated item; other users' items never change |
| ShoppingController.ToggleItemTwice | server/controllers/shoppingController.js:25-36 | two toggles of the same item leave the collection unchanged, and the second reply is the original item |
| ShoppingController.DeleteItem | server/controllers/shoppingController.js:38-47 | 404 and no change without an owned match; otherwise exactly that item is removed; other users' items never change |
| ShoppingController.AddRecipeToList | server/controllers/shoppingController.js:49-62 | 404 without an owned recipe; 500 and no change if any ingredient is empty; otherwise 201 with one new item per ingredient, in order, appended; other users' items never change |
| PlannerController.FindPlan | server/controllers/plannerController.js:20 | the lookup by user and date finds a plan with that user and date, and finds nothing exactly when there is none |
| PlannerController.Upserted | server/controllers/plannerController.js:20-34 | an existing plan for that user and date gets the new recipe in place, keeping its id, owner, stamp and date, with no new row and the user's plan count unchanged; otherwise one plan is appended; afterwards the lookup finds a plan with that recipe; at most one plan per user and date is preserved; other users' plans are unchanged |
| PlannerController.RemoveKeepsOnePlanPerDay | server/controllers/plannerController.js:44-48 | deleting a plan preserves at most one plan per user and date |
| PlannerController.GetPlanner | server/controllers/plannerController.js:3-10 | the caller's plans: an ordered sub-list of the collection holding every copy of each of the caller's plans and no other plan |
| PlannerController.UpdateInPlace | server/controllers/plannerController.js:20-24 | replacing the recipe of the found plan keeps the user's plan count, the lookup result, one plan per user and date, and every other user's plans |
| PlannerController.AppendNew | server/controllers/plannerController.js:28-34 | when the user has no plan on that date, appending one makes the lookup find it at the end, keeps the earlier rows, one plan per user and date, and every other user's plans |
| PlannerController.AddOrUpdatePlan | server/controllers/plannerController.js:12-38 | a missing date or recipe gives 400 and no change; otherwise the collection becomes the upsert, with 200 for an update and 201 for a create, and the reply is the caller's plan for that date |
| PlannerController.DeletePlan | server/controllers/plannerController.js:40-52 | 404 and no change without an owned match; otherwise exactly that plan is removed; the one-plan-per-day rule and other users' plans are preserved |
| PantryController.FindPantry | server/controllers/pantryController.js:6 | the lookup finds the caller's first pantry, and nothing exactly when the caller has none |
| PantryController.Upserted | server/controllers/pantryController.js:24-28 | after the upsert the caller's pantry holds exactly the given list; an existing pantry is updated in place, keeping its id, owner and stamp; a pantry is created only when the caller had none; at most one pantry per user is preserved; other users' pantries are unchanged |
| PantryController.GetPantry | server/controllers/pantryController.js:4-14 | 404 when the caller has no pantry, otherwise its ingredient list |
| PantryController.UpdatePantry | server/controllers/pantryController.js:16-34 | a non-array value gives 400 and no change; otherwise the collection becomes the upsert and the reply is the given list |
| PantryController.UpdateThenGet | server/controllers/pantryController.js:4-34 | reading the pantry after storing a list gives back that list |
| AuthController.FindByEmail | server/controllers/authController.js:10 | the lookup finds the first user with that email, and nothing exactly when there is none |
| AuthController.RegisterUser | server/controllers/authController.js:6-32 | a known email gives 400 and leaves the table unchanged; otherwise one user is added, storing the hash of the password, and 201 carries a token for the new id and only id, name and email; emails stay unique |
| AuthController.LoginUser | server/controllers/authController.js:34-56 | an unknown email and a wrong password give the same 400 "Invalid credentials"; a match gives a token for that user's id and only id, name and email; the table is only read |
| AuthController.RegisterThenLogin | server/controllers/authController.js:6-56 | when the hash comparison accepts a password against its own hash, logging in after a successful registration succeeds with the registered user's public fields and a token generated from the same id |
| AiController.Labeled | server/controllers/aiController.js:26-29 | a preference entry is non-empty exactly when its field is set |
| AiController.PresentIsExpected | server/controllers/aiController.js:25-30 | the filtered preference list holds exactly the set fields, labelled, in the order Dietary, Cuisine, Cooking Time, Servings |
| AiController.PreferencesEmptyIff | server/controllers/aiController.js:25-33 | the preference text is empty exactly when no preference field is set |
| AiController.FalsyIsAbsent | server/controllers/aiController.js:30 | a field given as the empty string gives the same preference text as a missing one |
| AiController.AllFourPreferences | server/controllers/aiController.js:25-30 | with all four fields set, the text is the four labelled parts joined by ", " |
| AiController.PromptLayout | server/controllers/aiController.js:32-49 | the prompt opens with the fixed sentence, carries the ingredients verbatim right after it, then the preference line, and ends with the JSON layout text |
| AiController.PromptWithoutPreferences | server/controllers/aiController.js:33 | with no preference set the prompt contains "Preferences: none." |
| AiController.GenerateRecipe | server/controllers/aiController.js:6-67 | missing ingredients give 400 whatever the generator would do; a failed generation or parse gives 500; otherwise 200 with every generated field plus `image`, which is null whenever the lookup finds nothing or an empty string |
| RecipeManager.RowsOrBlank | project/src/components/RecipeManager.jsx:57-58 | a missing or empty list becomes one blank row, and any other list is kept |
| RecipeManager.EditForm | project/src/components/RecipeManager.jsx:52-64 | the edit form has at least one row in each list and takes each field from the recipe or its default |
| RecipeManager.Clean | project/src/components/RecipeManager.jsx:68-72 | saving drops every blank and white-space-only row, keeps every copy of each other row in order, and keeps the other fields |
| RecipeManager.CleanIdempotent | project/src/components/RecipeManager.jsx:70-71 | cleaning a cleaned form changes nothing |
| RecipeManager.ChangeRow | project/src/components/RecipeManager.jsx:109-113 | a change replaces only the given row and keeps the length |
| RecipeManager.RemoveRow | project/src/components/RecipeManager.jsx:119-122 | a removal does nothing when at most one row is left, otherwise drops exactly that position, and never leaves fewer than one row |
| RecipeManager.AddThenRemoveRow | project/src/components/RecipeManager.jsx:115-122 | adding a row and removing it again restores the rows |
| RecipeManager.FilteredRecipes | project/src/components/RecipeManager.jsx:124-127 | the search gives an ordered sub-list holding every copy of each recipe whose title or cuisine contains the term, ignoring case, and no other recipe |
| RecipeManager.SearchIgnoresCase | project/src/components/RecipeManager.jsx:125-126 | searching for the lower-cased term gives the same list as searching for the term |
| RecipeManager.EmptySearchListsTitled | project/src/components/RecipeManager.jsx:124-127 | an empty search lists every recipe that has a title |
| RecipeManager.RecipeManagerState.constructor | project/src/components/RecipeManager.jsx:6-21 | the screen starts loading, with no recipes and the blank form |
| RecipeManager.RecipeManagerState.Shown | project/src/components/RecipeManager.jsx:124-127 | the shown list is the ordered sub-list of the recipes holding every copy of each recipe the current search matches and no other |
| RecipeManager.RecipeManagerState.FetchRecipes | project/src/components/RecipeManager.jsx:27-39 | the list becomes the fetched one, or empty on failure, and loading ends |
| RecipeManager.RecipeManagerState.HandleDelete | project/src/components/RecipeManager.jsx:41-50 | after a successful delete the list loses exactly the recipes with that id and the selection is cleared if it was that recipe; a failure changes nothing |
| RecipeManager.RecipeManagerState.HandleEdit | project/src/components/RecipeManager.jsx:52-64 | editing a recipe fills the form from it and keeps at least one row per list |
| RecipeManager.RecipeManagerState.HandleSave | project/src/components/RecipeManager.jsx:66-94 | the cleaned form is sent to the update or create route; on success an update replaces the recipe with the edited id, a create appends, the saved recipe is selected and the form resets; a failure changes nothing |
| RecipeManager.RecipeManagerState.StoreSaved | project/src/components/RecipeManager.jsx:77-90 | the server's recipe replaces the edited one by id or is appended, becomes the selection, and the form closes and resets |
| RecipeManager.RecipeManagerState.ResetForm | project/src/components/RecipeManager.jsx:96-107 | the form becomes the blank form |
| RecipeManager.RecipeManagerState.HandleArrayChange | project/src/components/RecipeManager.jsx:109-113 | only the given row of the given list changes |
| RecipeManager.RecipeManagerState.AddArrayItem | project/src/components/RecipeManager.jsx:115-117 | exactly one empty row is appended to the given list |
| RecipeManager.RecipeManagerState.RemoveArrayItem | project/src/components/RecipeManager.jsx:119-122 | a list with one row stays as it is; otherwise the given row goes; every list keeps at least one row |
| RecipeManager.RecipeManagerState.OpenAddForm | project/src/components/RecipeManager.jsx:148-153 | the add button opens a blank form with nothing selected or edited |
| RecipeManager.RecipeManagerState.CancelForm | project/src/components/RecipeManager.jsx:245-249 | cancel closes the form, ends editing and resets the form |
| RecipeManager.RecipeManagerState.SelectRecipe | project/src/components/RecipeManager.jsx:195-199 | clicking a recipe selects it and closes the form |
| RecipeManager.RecipeManagerState.EditButton | project/src/components/RecipeManager.jsx:211-216 | the edit button fills the form from the recipe, starts editing it and clears the selection |
| ShoppingList.Optimistic | project/src/components/ShoppingList.jsx:48-50 | the optimistic list sets `bought` on the target item only |
| ShoppingList.ConfirmMatchesOptimistic | project/src/components/ShoppingList.jsx:48-57 | when the server answers with the toggled item, the confirmed list equals the optimistic one |
| ShoppingList.FilteredItems | project/src/components/ShoppingList.jsx:100-104 | 'pending' keeps every copy of each unbought item and no bought one, 'completed' the reverse, each an ordered sub-list; any other tab keeps the whole list |
| ShoppingList.CompletedCount | project/src/components/ShoppingList.jsx:113 | the completed count is the number of items the Completed tab shows, and never exceeds the total |
| ShoppingList.PendingCount | project/src/components/ShoppingList.jsx:209-212 | the Pending tab's count, total minus completed, is the number of items the pending filter shows |
| ShoppingList.CategoryOf | project/src/components/ShoppingList.jsx:107 | an item's group is its category, or 'Other' when the category is missing or empty |
| ShoppingList.GroupStep | project/src/components/ShoppingList.jsx:106-111 | pushing one more item keeps the grouping correct, opening its category's group when it is new |
| ShoppingList.GroupItems | project/src/components/ShoppingList.jsx:106-111 | the groups partition the shown items by category: distinct keys, exactly one key and one non-empty group per category that occurs, each group holding that category's items in list order |
| ShoppingList.GroupsEmptyIff | project/src/components/ShoppingList.jsx:230 | there are no groups exactly when no item is shown |
| ShoppingList.GroupsPartition | project/src/components/ShoppingList.jsx:106-111 | an item is shown exactly when it is in the group of its own category, and it is in no other group |
| ShoppingList.MembersSpec | project/src/components/ShoppingList.jsx:106-111 | the items grouped under a category are exactly the shown items of that category |
| ShoppingList.MembersIsFilter | project/src/components/ShoppingList.jsx:106-111 | a category's group is the list of shown items filtered by that category, in list order |
| ShoppingList.ShoppingListState.constructor | project/src/components/ShoppingList.jsx:6-10 | the screen starts loading, with no items, blank inputs and the 'all' tab |
| ShoppingList.ShoppingListState.Shown | project/src/components/ShoppingList.jsx:100-104 | the list the current tab shows: on 'pending' every copy of each unbought item and no bought one, on 'completed' the reverse, each as an ordered sub-list, and the whole list on any other tab |
| ShoppingList.ShoppingListState.FetchShoppingList | project/src/components/ShoppingList.jsx:16-28 | the list becomes the fetched one, or empty on failure, and loading ends |
| ShoppingList.ShoppingListState.HandleAddItem | project/src/components/ShoppingList.jsx:30-41 | a blank name sends nothing and changes nothing; otherwise the inputs are sent, and on success the new item is appended and the inputs cleared |
| ShoppingList.ShoppingListState.BeginToggle | project/src/components/ShoppingList.jsx:43-50 | the list flips at once and the list as it was is kept |
| ShoppingList.ShoppingListState.FinishToggle | project/src/components/ShoppingList.jsx:52-61 | on success the server's item replaces that id in the kept list; on failure the kept list comes back exactly |
| ShoppingList.ShoppingListState.HandleToggleDone | project/src/components/ShoppingList.jsx:43-62 | a failed toggle leaves the list exactly as before; a successful one replaces that item with the server's |
| ShoppingList.ShoppingListState.HandleDeleteItem | project/src/components/ShoppingList.jsx:64-71 | a successful delete removes exactly the items with that id; a failure changes nothing |
| ShoppingList.ShoppingListState.HandleEditItem | project/src/components/ShoppingList.jsx:73-80 | the edit dialog gets the item's id and name, and its quantity and category or "" |
| ShoppingList.ShoppingListState.HandleUpdateItem | project/src/components/ShoppingList.jsx:82-98 | nothing is sent without an item being edited; on success only the item with the edited id is replaced and the dialog closes |
| ShoppingList.ShoppingListState.SetFilter | project/src/components/ShoppingList.jsx:216 | a tab sets the filter and nothing else |
| MealPlanner.MealsForDay | project/src/components/MealPlanner.jsx:131 | a day's meals are an ordered sub-list of the plans, and a plan is among them exactly when it falls on that day |
| MealPlanner.MealsForDayCounts | project/src/components/MealPlanner.jsx:131 | a day's meals hold every copy of each plan on that day and no other plan, so with the sub-list fact they are exactly that day's plans in order |
| MealPlanner.MealCaption | project/src/components/MealPlanner.jsx:178 | a meal shows its recipe title, or 'Custom meal' without one |
| MealPlanner.RenderCalendar | project/src/components/MealPlanner.jsx:134-197 | the grid is exactly firstDay filler cells, then one cell per day 1..daysInMonth in ascending order with that day's meals |
| MealPlanner.PlanShownOnItsDay | project/src/components/MealPlanner.jsx:145-147 | every plan that falls on a shown day appears in that day's cell |
| MealPlanner.MealPlannerState.constructor | project/src/components/MealPlanner.jsx:6-17 | the screen starts loading, with no plans and the blank dialog |
| MealPlanner.MealPlannerState.Load | project/src/components/MealPlanner.jsx:19-44 | each list becomes `response.data` or empty, a failed request keeps the old list, and loading ends |
| MealPlanner.MealPlannerState.ResetForm | project/src/components/MealPlanner.jsx:90-97 | the dialog fields become date '', meal 'breakfast', recipe '' and notes '' |
| MealPlanner.MealPlannerState.CloseForm | project/src/components/MealPlanner.jsx:99-103 | closing hides the dialog, ends editing and resets the fields |
| MealPlanner.MealPlannerState.OpenAddForm | project/src/components/MealPlanner.jsx:105-113 | the dialog opens for adding with the clicked date; the update built from the old fields wins over the reset, which is blank whenever the dialog was closed |
| MealPlanner.MealPlannerState.OpenEditForm | project/src/components/MealPlanner.jsx:115-124 | the dialog opens on that plan with its date, meal type, recipe id or '' and notes or '' |
| MealPlanner.MealPlannerState.ChangeForm | project/src/components/MealPlanner.jsx:254-290 | typing into the open dialog changes only its fields |
| MealPlanner.MealPlannerState.HandleAddMeal | project/src/components/MealPlanner.jsx:54-63 | the fields are sent; on success the new plan is appended and the dialog closes; a failure changes nothing |
| MealPlanner.MealPlannerState.HandleUpdateMeal | project/src/components/MealPlanner.jsx:65-78 | nothing is sent without a plan being edited; on success only the plan with the edited id is replaced and the dialog closes |
| MealPlanner.MealPlannerState.HandleSave | project/src/components/MealPlanner.jsx:46-52 | save updates while a plan is being edited and adds otherwise; on success the dialog closes, and a failure leaves the plans, the fields, the dialog and the edited plan as they were |
| MealPlanner.MealPlannerState.HandleDeleteMeal | project/src/components/MealPlanner.jsx:80-88 | a successful delete removes exactly the plans with that id, keeping the order of the rest |
| App.Select | project/src/App.jsx:56-75 | the page is the spinner while loading, then the dashboard when a user is set, else the sign-in page when asked for, else the home page |
| App.AppState.constructor | project/src/App.jsx:8-10 | the shell starts loading with no user and the home page requested |
| App.AppState.Startup | project/src/App.jsx:12-31 | with a token and a stored user that is present, not "undefined" and parseable, that user is restored; an unparseable one removes both keys; otherwise nothing changes; loading always ends |
| App.AppState.HandleLogin | project/src/App.jsx:33-36 | login sets the user and withdraws the sign-in request, so once loading has ended the dashboard shows |
| App.AppState.HandleLogout | project/src/App.jsx:38-43 | logout removes both stored keys, clears the user and the sign-in request, so once loading has ended the home page shows |
| App.AppState.HandleShowAuth | project/src/App.jsx:45-51 | get-started and show-login ask for the sign-in page and change nothing else |
| App.AppState.HandleBackToHome | project/src/App.jsx:53-55 | back-to-home withdraws the sign-in request and changes nothing else |
| App.RestoreThenLogout | project/src/App.jsx:12-43 | a restorable session shows its user's dashboard at start-up, and logging out then shows the home page and leaves no session stored |

## Left out

- The database itself. Mongoose queries are in-memory collections with fresh increasing ids and creation stamps. `populate('recipe')` in the planner listing and the `updatedAt` timestamps are not modelled.
- Casting of ids. Ids are natural numbers, so the 500 a malformed id string causes is not modelled. `recipeId` in the planner is an opaque string.
- The catch-all 500 replies for database failures. Only the 500s that validation causes are modelled, because the in-memory store never fails.
- The user model is not part of this model. The user table enforces unique emails through the handler's lookup only.
- The plan, pantry and shopping-item schemas only require fields the handlers always supply. Their `required` checks are modelled only where a handler can pass an empty value: the item name in `addRecipeToList`.
- bcrypt, `generateToken` and the `protect` middleware. Hash, compare and token are parameters, and the authenticated caller's id is an argument.
- AuthController.RegisterThenLogin: the token is a function of the user id only. A signed token with an expiry carries its issue time, so a real login after a registration gets a different token string for the same user; the equal tokens in this contract hold for the model's token function only.
- RegisterUser: a missing name, email or password is not modelled. The user schema that would reject one is not part of this model.
- The concurrency race between the lookup and the create in `addOrUpdatePlan`, and requests that overlap on the client. All calls are sequential.
- The Gemini call and `JSON.parse` of its text. Together they are one parameter that returns a parsed object, or None on any failure.
- The stored user as `JSON.parse` reads it (`App.Parsed`): a stored user that `JSON.parse` turns into a truthy value that is not an object, such as a JSON string or number, is not representable. App.jsx would still set it as the user and show the dashboard with it.
- AiController.GenerateRecipe: the generated recipe is not checked for a title, because the handler does not check it. A reply without a title still gets 200, with the image search run on no title. A parsed value that is not an object is not modelled. JavaScript spreads an array or string into the reply, and `null` fails with 500.
- The Unsplash lookup. It is a parameter that returns an optional string and never fails.
- AiController.GenerateRequest: `ingredients` and the preferences are strings. An ingredients array, which a template string joins with ",", and numeric preferences such as `0` are not modelled.
- Text.Lower: only the letters A–Z are lower-cased. JavaScript's full Unicode case mapping is not modelled.
- Express routing, `api.js` fetch plumbing, browser storage I/O beyond a map, and all JSX markup.
- Two mismatches between client and server are kept as the client code states them:
  - The meal planner reads `response.data`, while the API helper returns the body itself.
  - The client calls an update route for plans and shopping items that the server's route tables do not define.
  The model treats the handlers' received values as parameters and does not capture those failures.
- The shopping client's `quantity` and `category`, which the server never stores.
- JavaScript date arithmetic in the meal planner (days in month, first weekday, same-day test, ISO and locale formatting, month navigation). These are inputs: `firstDay`, `daysInMonth`, `sameDay`, `today` and the formatted dates.
- The progress percentage and its rounding on the shopping list, which is floating point.
- RecipeManager.RecipeManagerState.HandleArrayChange: requires an index of a shown row. The form only calls it with such an index, and writing past the end of a JavaScript array is not modelled.
- ShoppingList.GroupItems: the key order is insertion order. JavaScript lists integer-like object keys such as "1" first, and that is not modelled.
- ShoppingList.GroupItems: a category named after an inherited `Object.prototype` member, such as "constructor", "toString" or "__proto__", is grouped like any other. In the source the `reduce` onto `{}` finds the inherited value, skips creating the group, and the `push` throws, so the list fails to render. The server never stores a category, so only a client-side value could reach this.
- Loading spinners as a rendering state beyond the `loading` flag.
