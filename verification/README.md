# Recipe Book: a Dafny model of the recipe store and its view-models

This project models the core of an Android recipe book in Dafny. The app lists, creates, edits and deletes recipes. Each recipe is tagged with a type from a read-only catalog. The model has three layers:

- **The `recipes` table and its DAO** (`RecipeDao`). The table is a `map<int, Recipe>` from primary key to row. It has the DAO's six operations:
  - `getAllRecipes` and `getRecipesByType`;
  - the point lookup `getRecipeById`;
  - insert with REPLACE on conflict, where id 0 means "not yet assigned" and gets a fresh id;
  - update by primary key, a no-op when the id is absent;
  - delete by primary key.
- **`RecipeRepositoryImpl`** (`RecipeRepository`), a pass-through over the DAO.
- **The three view-models**, written as pure transitions over immutable UI-state records (`CreateRecipe`, `RecipeDetail`, `RecipeList`). Each `viewModelScope.launch` body is one atomic step. Each `Flow` is its query evaluated on the current table.

The model also covers the pure parts of the screens:

- the form's edit handlers (`RecipeForm`);
- the detail screen's event wiring: the save guard, the two-phase delete through the confirmation dialog, navigating back, and content selection;
- the list screen's item titles, body selection and filter dropdown (`RecipeList`);
- the navigation routes and the detail route's round trip back to the recipe id (`Navigation`).

Kotlin library behaviour the app depends on is written out in two modules:

- `KotlinText`: `isWhitespace`/`isBlank` with the JVM's full whitespace table, `isNullOrEmpty` and `firstOrNull`.
- `LongText`: `Long.toString`, and `String.toLong(radix)` with its sign, digit and range rules.

`Journeys` states properties that span screens:

- clicking a listed recipe opens that same recipe;
- a saved recipe shows up in the list;
- a deleted recipe leaves the list.

Modelling choices:

- A fresh id is `1 + max(0, largest id)`. The contracts only rely on it being positive, unused and larger than every stored id, which SQLite's `AUTOINCREMENT` also guarantees.
- The unordered queries return rows in ascending id order. That is one concrete order. The contracts promise membership and that order for both queries. They promise the exact count for the all-rows query only. The by-type query's contract bounds its length by the table size, and the exact count follows only on a valid table, where ids are distinct.
- The recipe-type catalog is a parameter. Reading and decoding it from the bundled JSON file is not modelled.
- On the detail screen, an event the UI cannot deliver in the current state is a no-op. Examples: a dialog button while no dialog is shown, a disabled save button, or a form edit while the form is hidden.

## Model

| member | source | states |
|---|---|---|
| RecipeModel.NewRecipe | app/src/main/java/com/example/recipebook/data/local/model/Recipe.kt:7-15 | A recipe built without an id carries the unassigned id 0; every other field is the argument given |
| RecipeModel.FindType | app/src/main/java/com/example/recipebook/ui/features/list/RecipeListScreen.kt:86 | `find { it.id == id }`: None exactly when no catalog entry has the id; otherwise an entry with that id that is the first such entry |
| RecipeDao.NextId | app/src/main/java/com/example/recipebook/data/local/model/Recipe.kt:8-9 | An auto-generated key is positive, never the unassigned id, larger than every stored id and so not held by any row |
| RecipeDao.GetAllRecipes | app/src/main/java/com/example/recipebook/data/local/RecipeDao.kt:10-12 | Lists exactly the stored rows, each once (length equals table size); on a valid table in ascending id order |
| RecipeDao.GetRecipesByType | app/src/main/java/com/example/recipebook/data/local/RecipeDao.kt:14-15 | A row is listed iff it is stored and its recipeTypeId equals the argument |
| RecipeDao.GetRecipeById | app/src/main/java/com/example/recipebook/data/local/RecipeDao.kt:17-18 | Found iff a row is stored under the id; the row found is a stored row and on a valid table carries the id asked for |
| RecipeDao.InsertRecipe | app/src/main/java/com/example/recipebook/data/local/RecipeDao.kt:20-21 | Returns the recipe's own id, or a fresh one for id 0; afterwards that id holds the recipe with that id, replacing any previous row; all other rows are unchanged; the table invariant is kept |
| RecipeDao.UpdateRecipe | app/src/main/java/com/example/recipebook/data/local/RecipeDao.kt:23-24 | Same key set; the row with the recipe's id is overwritten; other rows are unchanged; with no such row the table is unchanged |
| RecipeDao.DeleteRecipe | app/src/main/java/com/example/recipebook/data/local/RecipeDao.kt:26-27 | Removes exactly the recipe's id from the key set and leaves every other row unchanged; deleting an absent id changes nothing |
| RecipeDao.GetByIdAgreesWithAll | app/src/main/java/com/example/recipebook/data/local/RecipeDao.kt:17-18 | The point lookup returns a row iff the all-rows query lists it with that id, and returns null iff no listed row has that id |
| RecipeDao.ByTypePartitionsAll | app/src/main/java/com/example/recipebook/data/local/RecipeDao.kt:14-15 | Every listed row appears under its own type's query and under no other type's |
| RecipeDao.InsertUnassignedAddsOneRow | app/src/main/java/com/example/recipebook/data/local/RecipeDao.kt:20-21 | Inserting a recipe without an id lists exactly one more row |
| RecipeDao.DeleteRemovesFromAll | app/src/main/java/com/example/recipebook/data/local/RecipeDao.kt:26-27 | After a delete no listed row has that id; the count drops by one iff the id was stored |
| RecipeRepository.PassThrough | app/src/main/java/com/example/recipebook/data/repository/RecipeRepositoryImpl.kt:21-31 | Each repository recipe call equals the DAO call with unchanged arguments, including the id addRecipe returns |
| RecipeRepository.AddThenListOnEmpty | app/src/test/java/com/example/recipebook/data/repository/RecipeRepositoryTest.kt:55-69 | On an empty table, add then list yields exactly one recipe, with the inserted name and the inserted fields under the assigned id |
| RecipeRepository.AddDeleteThenListOnEmpty | app/src/test/java/com/example/recipebook/data/repository/RecipeRepositoryTest.kt:72-90 | On an empty table, adding a recipe that carries an id, deleting the same recipe and listing yields nothing |
| RecipeRepository.DeleteOfUnassignedRecipeKeepsRow | app/src/main/java/com/example/recipebook/data/repository/RecipeRepositoryImpl.kt:27-31 | Deleting the same id-0 recipe object that was added leaves its row, because the row got a fresh id |
| KotlinText.FirstOrNull | app/src/main/java/com/example/recipebook/ui/features/create/CreateRecipeViewModel.kt:36 | None iff the list is empty, otherwise its first element |
| KotlinText.IsWhitespace | app/src/main/java/com/example/recipebook/ui/features/create/CreateRecipeViewModel.kt:50 | On ASCII, exactly space, tab, line feed, carriage return, vertical tab, form feed and the four separators U+001C-U+001F are whitespace; nothing above U+3000 is |
| KotlinText.BlankByFirstChar | app/src/main/java/com/example/recipebook/ui/features/detail/RecipeDetailScreen.kt:81 | `isBlank`: the empty string is blank; a non-empty string is blank iff its first character is whitespace and the rest is blank; spaces added to a blank string keep it blank; one non-whitespace character makes a string non-blank |
| LongText.DigitOf | app/src/main/java/com/example/recipebook/ui/navigation/AppNavHost.kt:34 | The digit value of an ASCII character as `Character.digit` reads it, below 36; exactly the ASCII characters 0-9 have a value below 10, and that value is the character minus '0' |
| LongText.Render | app/src/main/java/com/example/recipebook/ui/navigation/Screen.kt:10 | `Long.toString`: non-empty, starts with `-` iff the number is negative, otherwise with a digit; ends with a digit; has no leading zero, also after the minus sign |
| LongText.ParseRadix | app/src/main/java/com/example/recipebook/ui/navigation/AppNavHost.kt:34 | An accepted text is non-empty; unsigned text is accepted iff every character is a digit of the radix, and then its value is the positional value of those digits |
| LongText.ParseRadixSigned | app/src/main/java/com/example/recipebook/ui/navigation/AppNavHost.kt:34 | Text starting with `-` or `+` is accepted iff at least one digit of the radix follows and nothing else does; its value is the digits' value, negated after `-` |
| LongText.ParseLongRadix | app/src/main/java/com/example/recipebook/ui/navigation/AppNavHost.kt:34 | `String.toLong(radix)`: accepted iff the signed parse succeeds and its value is within the Long range, and then that value |
| LongText.ParseLong | app/src/main/java/com/example/recipebook/ui/navigation/AppNavHost.kt:34 | `String.toLong()`: any result is a Long; unsigned text holding a non-decimal character is rejected |
| LongText.DigitsRoundTrip | app/src/main/java/com/example/recipebook/ui/navigation/Screen.kt:10 | The decimal digits of a natural number are all radix-10 digits, and their positional value is the number |
| LongText.LongRoundTrip | app/src/main/java/com/example/recipebook/ui/navigation/Screen.kt:10 | Parsing the decimal text of any Long as a Long gives the same number back |
| LongText.RenderInjective | app/src/main/java/com/example/recipebook/ui/navigation/Screen.kt:10 | Distinct numbers have distinct decimal texts |
| LongText.RenderRoundTrip | app/src/main/java/com/example/recipebook/ui/navigation/Screen.kt:10 | Parsing the decimal text of any integer in radix 10 gives it back |
| RecipeForm.OnNameChange | app/src/main/java/com/example/recipebook/ui/features/common/RecipeForm.kt:139 | The name becomes the typed text; restoring the old name gives back the original form, so nothing else changed |
| RecipeForm.OnIngredientsChange | app/src/main/java/com/example/recipebook/ui/features/common/RecipeForm.kt:179 | The ingredients become the typed text; nothing else changes |
| RecipeForm.OnStepsChange | app/src/main/java/com/example/recipebook/ui/features/common/RecipeForm.kt:189 | The steps become the typed text; nothing else changes |
| RecipeForm.OnTypeChosen | app/src/main/java/com/example/recipebook/ui/features/common/RecipeForm.kt:164-168 | The chosen catalog entry becomes the selected type; nothing else changes |
| RecipeForm.OnImagePicked | app/src/main/java/com/example/recipebook/ui/features/common/RecipeForm.kt:69-76 | A picked URI becomes the image; a cancelled pick leaves the form unchanged; no other field changes |
| RecipeForm.OnDeleteImage | app/src/main/java/com/example/recipebook/ui/features/common/RecipeForm.kt:125 | The image becomes null; nothing else changes |
| RecipeForm.DeleteImageEnabled | app/src/main/java/com/example/recipebook/ui/features/common/RecipeForm.kt:123 | "Delete Image" is enabled iff an image URI is present and is not the empty string |
| RecipeForm.TypeFieldText | app/src/main/java/com/example/recipebook/ui/features/common/RecipeForm.kt:151 | The type field shows the selected type's name, or "" when none is selected |
| RecipeForm.FormValidMeansNamedAndTyped | app/src/main/java/com/example/recipebook/ui/features/detail/RecipeDetailScreen.kt:81 | The save guard `name.isNotBlank() && selectedType != null` holds iff a type is selected and the name holds a character that is not whitespace; a valid form has a non-empty name |
| RecipeForm.EmptyFormIsInvalid | app/src/main/java/com/example/recipebook/ui/features/common/RecipeForm.kt:45-51 | The default form has no image and no type, fails the save guard, has "Delete Image" disabled and shows "" as its type |
| RecipeForm.DeleteImageButtonFollowsImage | app/src/main/java/com/example/recipebook/ui/features/common/RecipeForm.kt:122-125 | "Delete Image" is enabled iff the image is present and non-empty; it disables itself; picking a non-empty URI enables it |
| RecipeForm.TypeChoiceShown | app/src/main/java/com/example/recipebook/ui/features/common/RecipeForm.kt:150-168 | After choosing a type the type field shows its name, and the form is valid iff the name is not blank |
| RecipeForm.FieldEditsAreIndependent | app/src/main/java/com/example/recipebook/ui/features/common/RecipeForm.kt:137-194 | Edits of different fields commute: all 14 pairs of the six handlers, leaving out the two image handlers, which share a field. A later name, ingredients or steps edit overrides an earlier one. Picking or deleting the image, and editing ingredients or steps, leave the save guard as it was |
| CreateRecipe.OnTypesLoaded | app/src/main/java/com/example/recipebook/ui/features/create/CreateRecipeViewModel.kt:29-40 | The catalog is stored; the selected type is its first entry, or none when it is empty; the other form fields and the saved flag are untouched |
| CreateRecipe.OnFormDataChange | app/src/main/java/com/example/recipebook/ui/features/create/CreateRecipeViewModel.kt:42-44 | Replaces the form and nothing else |
| CreateRecipe.RecipeFromForm | app/src/main/java/com/example/recipebook/ui/features/create/CreateRecipeViewModel.kt:51-57 | The recipe to insert has id 0, the selected type's id, and the form's name, ingredients, steps and image |
| CreateRecipe.SaveRecipe | app/src/main/java/com/example/recipebook/ui/features/create/CreateRecipeViewModel.kt:46-63 | The table changes iff the name is not blank and a type is selected. If so, exactly one row is added under a fresh id, holding the form's fields and the type id, and isRecipeSaved becomes true. Otherwise state and table are unchanged. Existing rows are never altered |
| CreateRecipe.InitPreselectsFirstType | app/src/test/java/com/example/recipebook/ui/features/create/CreateRecipeViewModelTest.kt:47-55 | From the initial state, loading a non-empty catalog gives the empty form with the first type selected, that catalog, and isRecipeSaved false |
| CreateRecipe.BlankNameNeverSaves | app/src/test/java/com/example/recipebook/ui/features/create/CreateRecipeViewModelTest.kt:98-105 | A blank name leaves state and table unchanged whatever type is selected |
| CreateRecipe.CreateFlowSavesWithFirstType | app/src/test/java/com/example/recipebook/ui/features/create/CreateRecipeViewModelTest.kt:74-95 | Load, type a non-blank name, save: one row with that name and the first type's id is added and the saved flag is raised iff the catalog is non-empty |
| RecipeDetail.Load | app/src/main/java/com/example/recipebook/ui/features/detail/RecipeDetailViewModel.kt:33-57 | Loading ends. The recipe is the stored row or null. The draft copies name, ingredients, steps and image, and selects the first catalog entry with the recipe's type id, or none when no entry matches. With no recipe the draft is the empty form. The dialog and deleted flags are kept |
| RecipeDetail.OnFormDataChange | app/src/main/java/com/example/recipebook/ui/features/detail/RecipeDetailViewModel.kt:59-61 | Replaces the draft and nothing else |
| RecipeDetail.Edited | app/src/main/java/com/example/recipebook/ui/features/detail/RecipeDetailViewModel.kt:68-74 | The updated recipe keeps the loaded recipe's id and takes name, selected type id, ingredients, steps and image from the draft |
| RecipeDetail.UpdateRecipe | app/src/main/java/com/example/recipebook/ui/features/detail/RecipeDetailViewModel.kt:63-78 | The key set never changes. Without a loaded recipe, a non-blank name and a type, the table is unchanged. Otherwise the loaded id's row becomes the draft's fields under that id. Other rows are unchanged |
| RecipeDetail.ShowDeleteDialog | app/src/main/java/com/example/recipebook/ui/features/detail/RecipeDetailViewModel.kt:80-84 | Sets the dialog flag and nothing else |
| RecipeDetail.DeleteRecipe | app/src/main/java/com/example/recipebook/ui/features/detail/RecipeDetailViewModel.kt:86-93 | With no recipe nothing happens; otherwise exactly its id leaves the table and isRecipeDeleted becomes true; no row is altered |
| RecipeDetail.UnchangedDraftUpdateKeepsTable | app/src/main/java/com/example/recipebook/ui/features/detail/RecipeDetailViewModel.kt:39-77 | Saving a freshly loaded, unedited draft of any stored recipe leaves the table as it was. With a non-blank name and a catalog type it rewrites the same values; otherwise it writes nothing |
| RecipeDetail.DanglingTypeBlocksUpdate | app/src/main/java/com/example/recipebook/ui/features/detail/RecipeDetailViewModel.kt:45-67 | A recipe whose type id is in no catalog entry loads with an invalid draft, and updating it writes nothing |
| RecipeDetail.UpdateThenReloadYieldsDraft | app/src/main/java/com/example/recipebook/ui/features/detail/RecipeDetailViewModel.kt:39-77 | Edit round trip: after updating from a valid draft, reloading the recipe yields that draft when its type is the catalog's first entry with that id |
| RecipeDetail.Content | app/src/main/java/com/example/recipebook/ui/features/detail/RecipeDetailScreen.kt:99-110 | A spinner iff loading; "Recipe not found." iff loaded with no recipe; otherwise the form with the draft and catalog |
| RecipeDetail.Title | app/src/main/java/com/example/recipebook/ui/features/detail/RecipeDetailScreen.kt:60 | The top bar shows the loaded recipe's name, or "Recipe Detail" while no recipe is loaded |
| RecipeDetail.LoadedScreenShows | app/src/main/java/com/example/recipebook/ui/features/detail/RecipeDetailScreen.kt:60-110 | Before loading: the default title over a spinner. After loading id: the stored recipe's name over the form with its draft, or the default title over "Recipe not found." when no row has the id |
| RecipeDetail.Dispatch | app/src/main/java/com/example/recipebook/ui/features/detail/RecipeDetailScreen.kt:37-91 | Only a confirmation while the dialog is shown can change the key set, and no event adds keys. Confirming closes the dialog. The dialog can only be open after the delete icon or if it was already open |
| RecipeDetail.BackEndsTheRun | app/src/main/java/com/example/recipebook/ui/features/detail/RecipeDetailScreen.kt:63-64 | The back arrow pops the screen: the run ends there with state and table unchanged, so a later delete icon and confirmation remove nothing |
| RecipeDetail.IconAndDismissNeverDelete | app/src/main/java/com/example/recipebook/ui/features/detail/RecipeDetailScreen.kt:43-71 | The delete icon only opens the dialog; dismissing only closes it; neither touches the table or navigates |
| RecipeDetail.SaveBackAndEditEvents | app/src/main/java/com/example/recipebook/ui/features/detail/RecipeDetailScreen.kt:63-109 | An enabled save button updates the table and navigates back; a disabled one changes nothing; the back arrow navigates back and changes nothing; a form edit replaces the draft while the form is shown and is ignored otherwise |
| RecipeDetail.SaveWritesDraftAndNavigatesBack | app/src/main/java/com/example/recipebook/ui/features/detail/RecipeDetailScreen.kt:81-91 | On a loaded screen, editing to a valid draft and saving overwrites the loaded id's row with the draft's fields, keeps the key set and navigates back |
| RecipeDetail.ConfirmDeletesAndNavigatesBack | app/src/main/java/com/example/recipebook/ui/features/detail/RecipeDetailScreen.kt:37-53 | Confirming the shown dialog for a loaded recipe closes it, removes that row, marks it deleted and navigates back |
| RecipeDetail.RemovalNeedsConfirmation | app/src/main/java/com/example/recipebook/ui/features/detail/RecipeDetailScreen.kt:43-71 | When a run of events removes a row, one event is a confirmation. Before it, the delete icon was clicked or the dialog was already open |
| RecipeDetail.LoadedScreenDeletesOnlyAfterConfirm | app/src/main/java/com/example/recipebook/ui/features/detail/RecipeDetailScreen.kt:43-71 | On a screen that has just loaded a recipe, a row disappears only after the delete icon and then a later confirmation |
| RecipeDetail.IconThenConfirmDeletesLoadedRecipe | app/src/main/java/com/example/recipebook/ui/features/detail/RecipeDetailScreen.kt:43-71 | On a screen that has loaded a stored recipe, the icon then the confirmation removes exactly that recipe's row, closes the dialog, marks it deleted and navigates back |
| RecipeList.OnTypesLoaded | app/src/main/java/com/example/recipebook/ui/features/list/RecipeListViewModel.kt:49-53 | The loaded catalog replaces the held one; the filter is kept |
| RecipeList.OnFilterChanged | app/src/main/java/com/example/recipebook/ui/features/list/RecipeListViewModel.kt:55-57 | Sets the filter and nothing else |
| RecipeList.ActiveQuery | app/src/main/java/com/example/recipebook/ui/features/list/RecipeListViewModel.kt:30-33 | The query the filter switches to lists a row iff it is stored and has the filter's type, or every stored row once with no filter |
| RecipeList.Snapshot | app/src/main/java/com/example/recipebook/ui/features/list/RecipeListViewModel.kt:29-47 | Not loading; carries the filter and catalog; lists a row iff it is stored and matches the filter (every row with no filter, all of them) |
| RecipeList.InitialSnapshotListsAll | app/src/test/java/com/example/recipebook/ui/features/list/RecipeListViewModelTest.kt:55-71 | With no filter chosen yet the snapshot lists all rows and the full catalog, with no filter and not loading |
| RecipeList.FilterSwitchLeavesNoResidue | app/src/main/java/com/example/recipebook/ui/features/list/RecipeListViewModel.kt:30-33 | Switching from A to B lists exactly B's query. Every listed row has B's type, and none of A's rows of another type remain. The result is the same as choosing B directly |
| RecipeList.ClearingFilterListsAll | app/src/main/java/com/example/recipebook/ui/features/list/RecipeListViewModel.kt:30-31 | Choosing no filter lists every row, whatever filter was active |
| RecipeList.FilteredIsSubsetOfAll | app/src/main/java/com/example/recipebook/ui/features/list/RecipeListViewModel.kt:30-33 | A filtered snapshot lists exactly the unfiltered rows of the filter's type |
| RecipeList.SampleFilterScenario | app/src/test/java/com/example/recipebook/ui/features/list/RecipeListViewModelTest.kt:74-97 | On the test's two-recipe table, the list first shows both recipes and then only type 1's recipe after filtering |
| RecipeList.ItemLabel | app/src/main/java/com/example/recipebook/ui/features/list/RecipeListScreen.kt:151-152 | The title starts with the recipe name. It is `name (type)` when the type resolves to a non-empty name, otherwise just the name |
| RecipeList.Body | app/src/main/java/com/example/recipebook/ui/features/list/RecipeListScreen.kt:57-90 | A spinner iff loading; "No recipes found. Add one!" iff loaded with no recipes; otherwise one item per recipe in order, with its id and the title for its type resolved by id |
| RecipeList.FirstFrames | app/src/main/java/com/example/recipebook/ui/features/list/RecipeListViewModel.kt:44-46 | Before the first emission the screen shows a spinner under "All Recipes"; a loaded empty table shows the empty-list message |
| RecipeList.FilterText | app/src/main/java/com/example/recipebook/ui/features/list/RecipeListScreen.kt:111 | The filter field shows the selected type's name, or "All Recipes" with no filter |
| RecipeList.FilterOptions | app/src/main/java/com/example/recipebook/ui/features/list/RecipeListScreen.kt:124-139 | The dropdown lists "All Recipes" first, then every catalog entry in order |
| RecipeList.ChoosingFilterOption | app/src/main/java/com/example/recipebook/ui/features/list/RecipeListScreen.kt:110-139 | "All Recipes" clears the filter and the field shows "All Recipes"; a type entry selects that type and the field shows its name |
| RecipeList.DanglingTypeShowsBareName | app/src/main/java/com/example/recipebook/ui/features/list/RecipeListScreen.kt:145-152 | A recipe whose type id is in no catalog entry is titled by its bare name |
| Navigation.CreateRoute | app/src/main/java/com/example/recipebook/ui/navigation/Screen.kt:9-11 | A built detail route starts with "recipe_detail/" and has more after it |
| Navigation.NavLongValue | app/src/main/java/com/example/recipebook/ui/navigation/AppNavHost.kt:34 | `NavType.LongType` parsing: any result is a Long; a trailing `L` is dropped; text starting with `0x` is read in radix 16 from its third character; other text is read in radix 10 |
| Navigation.DetailRouteId | app/src/main/java/com/example/recipebook/ui/navigation/AppNavHost.kt:32-34 | An id is read only from a route that starts with "recipe_detail/" and has more after it, and it is always within the Long range |
| Navigation.NavLongForms | app/src/main/java/com/example/recipebook/ui/navigation/AppNavHost.kt:34 | The argument parse reads back the decimal text of any Long, with or without a trailing `L` |
| Navigation.NavLongHexExamples | app/src/main/java/com/example/recipebook/ui/navigation/AppNavHost.kt:34 | Hexadecimal after `0x` is accepted in either letter case, with a sign and with or without `L`; a bare `L`, `0x` or `0xL` is rejected |
| Navigation.CreateRouteFillsTemplate | app/src/main/java/com/example/recipebook/ui/navigation/Screen.kt:8-11 | `createRoute(id)` is the route template with `{recipeId}` replaced by the id's decimal text |
| Navigation.RouteRoundTrip | app/src/main/java/com/example/recipebook/ui/navigation/Screen.kt:8-11 | Reading the argument of `createRoute(id)` as a Long gives id back |
| Navigation.CreateRouteInjective | app/src/main/java/com/example/recipebook/ui/navigation/Screen.kt:9-11 | Distinct ids give distinct routes |
| Navigation.RoutesDistinct | app/src/main/java/com/example/recipebook/ui/navigation/Screen.kt:5-8 | The three route patterns are pairwise distinct, and no built detail route equals the list or create route |
| Journeys.ListClickOpensThatRecipe | app/src/main/java/com/example/recipebook/ui/features/list/RecipeListScreen.kt:83-88 | Clicking a listed item leads through its route to a detail screen that loads that recipe |
| Journeys.CreatedRecipeIsListed | app/src/main/java/com/example/recipebook/ui/features/create/CreateRecipeViewModel.kt:46-63 | A recipe saved from a valid form is listed afterwards with the form's fields, both unfiltered and under its type's filter |
| Journeys.DeletedRecipeLeavesList | app/src/main/java/com/example/recipebook/ui/features/detail/RecipeDetailScreen.kt:50-53 | After a confirmed delete no list snapshot shows a row with that id |

## Left out

- Catalog loading (`getRecipeTypes`, `RecipeRepositoryImpl.kt:33-42`): an asset-file read plus Gson JSON decoding. The catalog is a given `seq<RecipeType>`. So "the catalog holds the file's entries in file order" is not modelled.
- Coroutines and flows (`launch`, `flatMapLatest`, `combine`, `stateIn(WhileSubscribed(5000))`): every launch is one atomic step and every flow is its query on the current table. The intermediate list emission, where the new filter is shown with the old rows, depends on scheduling and is not modelled.
- Compose layout and styling, `CreateRecipeScreen.kt`, `MainActivity.kt`, dependency injection, and the navigation graph beyond reading the detail route's argument: UI and framework plumbing with no logic beyond what is modelled.
- The photo picker and URI permission grant (`RecipeForm.kt:67-77`): platform calls. Only the form update made with the picked URI is modelled.
- The database prepopulation callback (`AppDatabase.kt`): a lifecycle hook whose four sample recipes are fixture data.
- Room and SQLite internals: the exact `AUTOINCREMENT` counter, the schema, and the row order of unordered queries.
- RecipeDao.NextId: may pick a smaller id than SQLite would, because SQLite's `AUTOINCREMENT` also avoids ids that were used by rows since deleted. The 64-bit overflow of the id counter is not modelled.
- RecipeDao.GetAllRecipes: the ascending id order is this model's choice. The source promises no order.
- Integer widths: ids and type ids are unbounded integers. Only the route's Long parse checks the Long range.
- LongText.DigitOf: reads ASCII digits and Latin letters only. `Character.digit` also gives values to non-ASCII decimal digits (such as U+0660-U+0669) and fullwidth Latin letters.
- LongText.ParseRadix: built on `DigitOf`, so it rejects text with non-ASCII digits that `Long.parseLong` accepts.
- LongText.ParseLong: rejects "١٢", which `String.toLong()` reads as 12, for the same reason.
- Navigation.DetailRouteId: `Character.digit` also accepts non-ASCII decimal digits and fullwidth Latin letters, which the model's digit reading rejects. The navigation library's percent-decoding of a route segment before parsing is also not modelled.
- Kotlin `Char` is a UTF-16 code unit, while a Dafny `char` is a Unicode scalar value. The whitespace table is Kotlin's, but surrogate halves are not representable.
