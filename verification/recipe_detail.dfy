/**
 * `RecipeDetailViewModel` as pure transitions over `RecipeDetailUiState`, and
 * the event wiring of `RecipeDetailScreen`: the save button's guard, the
 * two-phase delete through the confirmation dialog, navigating back, and
 * which content the screen shows.
 */
module RecipeDetail {
  import opened Wrappers
  import opened KotlinText
  import opened RecipeModel
  import opened RecipeForm
  import Dao = RecipeDao
  import Repo = RecipeRepository

  datatype RecipeDetailUiState = RecipeDetailUiState(
    recipe: Option<Recipe>,
    formData: RecipeFormData,
    recipeTypes: seq<RecipeType>,
    isLoading: bool,
    isRecipeDeleted: bool,
    showDeleteConfirmDialog: bool
  )

  /** `RecipeDetailUiState()`. */
  const InitialState: RecipeDetailUiState := RecipeDetailUiState(None, EmptyForm, [], true, false, false)

  /** The draft a loaded recipe starts from; its type is resolved against the catalog by id. */
  function DraftOf(recipe: Recipe, types: seq<RecipeType>): RecipeFormData {
    RecipeFormData(recipe.imageUri, FindType(types, recipe.recipeTypeId),
                   recipe.name, recipe.ingredients, recipe.steps)
  }

  /**
   * The `init` coroutine for the route's `recipeId`: look the recipe up, take
   * the catalog, derive the draft and end loading.
   */
  function Load(st: RecipeDetailUiState, store: Dao.Store, recipeId: int, types: seq<RecipeType>): (r: RecipeDetailUiState)
    ensures !r.isLoading && r.recipeTypes == types
    ensures r.recipe.Some? <==> recipeId in store
    ensures r.recipe.Some? ==> r.recipe.value == store[recipeId]
    ensures r.recipe.None? ==> r.formData == EmptyForm
    ensures r.recipe.Some? ==>
      && r.formData.name == r.recipe.value.name
      && r.formData.ingredients == r.recipe.value.ingredients
      && r.formData.steps == r.recipe.value.steps
      && r.formData.imageUri == r.recipe.value.imageUri
      && (r.formData.selectedType.None? <==> !HasType(types, r.recipe.value.recipeTypeId))
      && (r.formData.selectedType.Some? ==> r.formData.selectedType.value.id == r.recipe.value.recipeTypeId)
      && r.formData.selectedType == FindType(types, r.recipe.value.recipeTypeId)
    ensures r.isRecipeDeleted == st.isRecipeDeleted && r.showDeleteConfirmDialog == st.showDeleteConfirmDialog
  {
    var recipe := Repo.GetRecipe(store, recipeId);
    var draft := match recipe
      case Some(rec) => DraftOf(rec, types)
      case None => EmptyForm;
    st.(recipe := recipe, formData := draft, recipeTypes := types, isLoading := false)
  }

  /** `onFormDataChange`. */
  function OnFormDataChange(st: RecipeDetailUiState, f: RecipeFormData): (r: RecipeDetailUiState)
    ensures r.formData == f
    ensures r.(formData := st.formData) == st
  {
    st.(formData := f)
  }

  /** The recipe `updateRecipe` writes: the loaded recipe's id, every other field from the draft. */
  function Edited(recipe: Recipe, f: RecipeFormData): (r: Recipe)
    requires f.selectedType.Some?
    ensures r.id == recipe.id
    ensures r.name == f.name && r.ingredients == f.ingredients && r.steps == f.steps && r.imageUri == f.imageUri
    ensures r.recipeTypeId == f.selectedType.value.id
  {
    recipe.(name := f.name, recipeTypeId := f.selectedType.value.id,
            ingredients := f.ingredients, steps := f.steps, imageUri := f.imageUri)
  }

  /**
   * `updateRecipe`: with a loaded recipe and a valid draft, overwrite that
   * recipe's row; otherwise leave the table alone. The UI state is not
   * changed, so it is not returned.
   */
  function UpdateRecipe(st: RecipeDetailUiState, store: Dao.Store): (r: Dao.Store)
    ensures r.Keys == store.Keys
    ensures !(st.recipe.Some? && IsFormValid(st.formData)) ==> r == store
    ensures st.recipe.Some? && IsFormValid(st.formData) && st.recipe.value.id in store ==>
      r[st.recipe.value.id] == Recipe(st.recipe.value.id, st.formData.name, st.formData.selectedType.value.id,
                                      st.formData.ingredients, st.formData.steps, st.formData.imageUri)
    ensures forall k :: k in store && (st.recipe.None? || k != st.recipe.value.id) ==> r[k] == store[k]
    ensures Dao.Valid(store) ==> Dao.Valid(r)
  {
    if st.recipe.Some? && IsNotBlank(st.formData.name) && st.formData.selectedType.Some? then
      Repo.UpdateRecipe(store, Edited(st.recipe.value, st.formData))
    else
      store
  }

  /** `showDeleteDialog(show)`. */
  function ShowDeleteDialog(st: RecipeDetailUiState, show: bool): (r: RecipeDetailUiState)
    ensures r.showDeleteConfirmDialog == show
    ensures r.(showDeleteConfirmDialog := st.showDeleteConfirmDialog) == st
  {
    st.(showDeleteConfirmDialog := show)
  }

  datatype DeleteOutcome = DeleteOutcome(state: RecipeDetailUiState, store: Dao.Store)

  /** `deleteRecipe`: with a loaded recipe, remove its row and raise `isRecipeDeleted`; otherwise do nothing. */
  function DeleteRecipe(st: RecipeDetailUiState, store: Dao.Store): (r: DeleteOutcome)
    ensures st.recipe.None? ==> r == DeleteOutcome(st, store)
    ensures st.recipe.Some? ==> r.state == st.(isRecipeDeleted := true)
    ensures st.recipe.Some? ==> r.store.Keys == store.Keys - {st.recipe.value.id}
    ensures forall k :: k in r.store ==> k in store && r.store[k] == store[k]
    ensures Dao.Valid(store) ==> Dao.Valid(r.store)
  {
    match st.recipe
    case Some(rec) => DeleteOutcome(st.(isRecipeDeleted := true), Repo.DeleteRecipe(store, rec))
    case None => DeleteOutcome(st, store)
  }

  /**
   * Saving an unedited draft leaves the table as it was: a valid draft
   * rewrites the row with the values it already holds, and an invalid one
   * (blank name, or a type missing from the catalog) writes nothing.
   */
  lemma {:induction false} UnchangedDraftUpdateKeepsTable(store: Dao.Store, id: int, types: seq<RecipeType>)
    requires Dao.Valid(store) && id in store
    ensures UpdateRecipe(Load(InitialState, store, id, types), store) == store
  {
    var st := Load(InitialState, store, id, types);
    if IsFormValid(st.formData) {
      assert Edited(store[id], st.formData) == store[id];
    }
  }

  /**
   * A recipe whose type id names no catalog entry loads with no type
   * selected, so the save button is disabled and an update writes nothing
   * until a type is chosen.
   */
  lemma DanglingTypeBlocksUpdate(store: Dao.Store, id: int, types: seq<RecipeType>)
    requires id in store && !HasType(types, store[id].recipeTypeId)
    ensures !IsFormValid(Load(InitialState, store, id, types).formData)
    ensures UpdateRecipe(Load(InitialState, store, id, types), store) == store
  {
  }

  /**
   * Edit round trip: after an update from a valid draft, loading the same id
   * again yields that draft, provided the chosen type is the catalog's first
   * entry with its id.
   */
  lemma {:induction false} UpdateThenReloadYieldsDraft(store: Dao.Store, id: int, types: seq<RecipeType>, f: RecipeFormData)
    requires Dao.Valid(store) && id in store
    requires IsFormValid(f) && FindType(types, f.selectedType.value.id) == f.selectedType
    ensures var edited := OnFormDataChange(Load(InitialState, store, id, types), f);
            var updated := UpdateRecipe(edited, store);
            Load(InitialState, updated, id, types).formData == f
  {
    var edited := OnFormDataChange(Load(InitialState, store, id, types), f);
    var updated := UpdateRecipe(edited, store);
    assert updated[id] == Edited(store[id], f);
  }

  const NotFoundText: string := "Recipe not found."
  const DefaultTitle: string := "Recipe Detail"

  /** Which content the detail screen shows. */
  datatype DetailContent = Spinner | NotFound(message: string) | Form(formData: RecipeFormData, recipeTypes: seq<RecipeType>)

  /** A spinner while loading, "Recipe not found." when nothing was loaded, the form otherwise. */
  function Content(st: RecipeDetailUiState): (c: DetailContent)
    ensures c.Spinner? <==> st.isLoading
    ensures c.NotFound? <==> !st.isLoading && st.recipe.None?
    ensures c.NotFound? ==> c.message == NotFoundText
    ensures c.Form? <==> !st.isLoading && st.recipe.Some?
    ensures c.Form? ==> c.formData == st.formData && c.recipeTypes == st.recipeTypes
  {
    if st.isLoading then Spinner
    else if st.recipe.None? then NotFound(NotFoundText)
    else Form(st.formData, st.recipeTypes)
  }

  /** The top bar title: the loaded recipe's name, or "Recipe Detail" while none is loaded. */
  function Title(st: RecipeDetailUiState): (title: string)
    ensures st.recipe.Some? ==> title == st.recipe.value.name
    ensures st.recipe.None? ==> title == DefaultTitle
  {
    match st.recipe
    case Some(rec) => rec.name
    case None => DefaultTitle
  }

  /**
   * What a screen opened on `id` shows once loading ends: the stored
   * recipe's name as title over its form, or the default title over
   * "Recipe not found." when no row has that id.
   */
  lemma LoadedScreenShows(store: Dao.Store, id: int, types: seq<RecipeType>)
    ensures var st := Load(InitialState, store, id, types);
            && (id in store ==> Title(st) == store[id].name && Content(st) == Form(DraftOf(store[id], types), types))
            && (id !in store ==> Title(st) == DefaultTitle && Content(st) == NotFound(NotFoundText))
    ensures Title(InitialState) == DefaultTitle && Content(InitialState) == Spinner
  {
  }

  /** What the user can do on the detail screen. */
  datatype DetailEvent =
    | BackClicked
    | DeleteIconClicked
    | DialogDismissed
    | DialogConfirmed
    | SaveClicked
    | FormEdited(f: RecipeFormData)

  /** One dispatched event: the new state and table, and whether the screen navigates back. */
  datatype DetailStep = DetailStep(state: RecipeDetailUiState, store: Dao.Store, navigateBack: bool)

  /** The `LaunchedEffect` on `isRecipeDeleted`: navigate back once the recipe has been deleted. */
  predicate DeletionNavigatesBack(before: RecipeDetailUiState, after: RecipeDetailUiState) {
    !before.isRecipeDeleted && after.isRecipeDeleted
  }

  /**
   * One user event. An event the screen cannot deliver in the current state
   * (a dialog button while no dialog is shown, a disabled save button, a
   * form edit while the form is not shown) changes nothing.
   */
  function Dispatch(st: RecipeDetailUiState, store: Dao.Store, e: DetailEvent): (r: DetailStep)
    ensures r.store.Keys != store.Keys ==> e == DialogConfirmed && st.showDeleteConfirmDialog
    ensures e == DialogConfirmed && st.showDeleteConfirmDialog ==> !r.state.showDeleteConfirmDialog
    ensures r.state.showDeleteConfirmDialog ==> st.showDeleteConfirmDialog || e == DeleteIconClicked
    ensures r.store.Keys <= store.Keys
  {
    match e
    case BackClicked => DetailStep(st, store, true)
    case DeleteIconClicked => DetailStep(ShowDeleteDialog(st, true), store, false)
    case DialogDismissed =>
      if st.showDeleteConfirmDialog then DetailStep(ShowDeleteDialog(st, false), store, false)
      else DetailStep(st, store, false)
    case DialogConfirmed =>
      if st.showDeleteConfirmDialog then
        var closed := ShowDeleteDialog(st, false);
        var deleted := DeleteRecipe(closed, store);
        DetailStep(deleted.state, deleted.store, DeletionNavigatesBack(closed, deleted.state))
      else DetailStep(st, store, false)
    case SaveClicked =>
      if IsFormValid(st.formData) then DetailStep(st, UpdateRecipe(st, store), true)
      else DetailStep(st, store, false)
    case FormEdited(f) =>
      if Content(st).Form? then DetailStep(OnFormDataChange(st, f), store, false)
      else DetailStep(st, store, false)
  }

  /**
   * A sequence of events dispatched one after the other, up to the first one
   * that navigates back: the screen is then popped and receives nothing more.
   */
  function Run(st: RecipeDetailUiState, store: Dao.Store, events: seq<DetailEvent>): (r: DetailStep)
    ensures r.store.Keys <= store.Keys
    ensures |events| > 0 && Dispatch(st, store, events[0]).navigateBack ==> r == Dispatch(st, store, events[0])
    decreases |events|
  {
    if |events| == 0 then DetailStep(st, store, false)
    else
      var step := Dispatch(st, store, events[0]);
      if step.navigateBack then step
      else Run(step.state, step.store, events[1..])
  }

  /** Once the back arrow pops the screen, later events have no effect: the table is left as it was. */
  lemma BackEndsTheRun(st: RecipeDetailUiState, store: Dao.Store, later: seq<DetailEvent>)
    ensures Run(st, store, [BackClicked] + later) == DetailStep(st, store, true)
    ensures Run(st, store, [BackClicked, DeleteIconClicked, DialogConfirmed]).store == store
  {
    assert ([BackClicked] + later)[0] == BackClicked;
  }

  /** The delete icon only opens the dialog; dismissing it only closes it. Neither touches the table or navigates. */
  lemma IconAndDismissNeverDelete(st: RecipeDetailUiState, store: Dao.Store)
    ensures Dispatch(st, store, DeleteIconClicked) == DetailStep(ShowDeleteDialog(st, true), store, false)
    ensures Dispatch(st, store, DialogDismissed) == DetailStep(ShowDeleteDialog(st, false), store, false)
  {
  }

  /**
   * The bottom bar and the back arrow: an enabled "Save Changes" writes the
   * draft and navigates back, a disabled one does nothing; the back arrow
   * navigates back and leaves state and table alone; a form edit replaces
   * the draft only while the form is shown.
   */
  lemma SaveBackAndEditEvents(st: RecipeDetailUiState, store: Dao.Store, f: RecipeFormData)
    ensures IsFormValid(st.formData) ==> Dispatch(st, store, SaveClicked) == DetailStep(st, UpdateRecipe(st, store), true)
    ensures !IsFormValid(st.formData) ==> Dispatch(st, store, SaveClicked) == DetailStep(st, store, false)
    ensures Dispatch(st, store, BackClicked) == DetailStep(st, store, true)
    ensures Content(st).Form? ==> Dispatch(st, store, FormEdited(f)) == DetailStep(st.(formData := f), store, false)
    ensures !Content(st).Form? ==> Dispatch(st, store, FormEdited(f)) == DetailStep(st, store, false)
  {
  }

  /**
   * Saving on a loaded screen with a valid draft: the row of the loaded id
   * now holds the draft's fields, no row is added or removed, and the
   * screen navigates back.
   */
  lemma SaveWritesDraftAndNavigatesBack(store: Dao.Store, id: int, types: seq<RecipeType>, f: RecipeFormData)
    requires Dao.Valid(store) && id in store && IsFormValid(f)
    ensures var st := Load(InitialState, store, id, types);
            var r := Run(st, store, [FormEdited(f), SaveClicked]);
            && r.navigateBack && r.store.Keys == store.Keys
            && r.store[id] == Recipe(id, f.name, f.selectedType.value.id, f.ingredients, f.steps, f.imageUri)
  {
    var st := Load(InitialState, store, id, types);
    var edited := Dispatch(st, store, FormEdited(f));
    assert edited.state == st.(formData := f);
    assert [FormEdited(f), SaveClicked][1..] == [SaveClicked];
    assert [SaveClicked][1..] == [];
  }

  /**
   * Confirming the shown dialog for a loaded recipe closes the dialog,
   * removes the recipe's row, marks it deleted and navigates back.
   */
  lemma ConfirmDeletesAndNavigatesBack(st: RecipeDetailUiState, store: Dao.Store)
    requires st.showDeleteConfirmDialog && st.recipe.Some? && !st.isRecipeDeleted
    ensures var r := Dispatch(st, store, DialogConfirmed);
            && r.navigateBack
            && r.state.isRecipeDeleted && !r.state.showDeleteConfirmDialog
            && r.store.Keys == store.Keys - {st.recipe.value.id}
  {
  }

  /**
   * Two-phase delete: whenever a run of events removes a row, some event of
   * the run is a confirmation, and before it the dialog had been opened (or
   * was already open when the run began).
   */
  lemma {:induction false} RemovalNeedsConfirmation(st: RecipeDetailUiState, store: Dao.Store,
                                                    events: seq<DetailEvent>, k: int)
    requires k in store && k !in Run(st, store, events).store
    ensures exists j :: 0 <= j < |events| && events[j] == DialogConfirmed &&
              (st.showDeleteConfirmDialog || exists i :: 0 <= i < j && events[i] == DeleteIconClicked)
    decreases |events|
  {
    var step := Dispatch(st, store, events[0]);
    if k !in step.store {
      assert events[0] == DialogConfirmed && st.showDeleteConfirmDialog;
    } else {
      RemovalNeedsConfirmation(step.state, step.store, events[1..], k);
      var j :| 0 <= j < |events[1..]| && events[1..][j] == DialogConfirmed &&
               (step.state.showDeleteConfirmDialog || exists i :: 0 <= i < j && events[1..][i] == DeleteIconClicked);
      assert events[j + 1] == DialogConfirmed;
      if step.state.showDeleteConfirmDialog {
        if !st.showDeleteConfirmDialog {
          assert events[0] == DeleteIconClicked;
        }
      } else {
        var i :| 0 <= i < j && events[1..][i] == DeleteIconClicked;
        assert events[i + 1] == DeleteIconClicked;
      }
    }
  }

  /**
   * On a screen that has just loaded recipe `id`, no row disappears unless
   * the user opened the dialog and then confirmed it.
   */
  lemma LoadedScreenDeletesOnlyAfterConfirm(store: Dao.Store, id: int, types: seq<RecipeType>,
                                            events: seq<DetailEvent>, k: int)
    requires k in store && k !in Run(Load(InitialState, store, id, types), store, events).store
    ensures exists i, j :: 0 <= i < j < |events| && events[i] == DeleteIconClicked && events[j] == DialogConfirmed
  {
    RemovalNeedsConfirmation(Load(InitialState, store, id, types), store, events, k);
  }

  /**
   * The delete path is reachable: on a screen that has loaded a stored
   * recipe, the icon followed by the confirmation removes exactly that
   * recipe's row and navigates back.
   */
  lemma IconThenConfirmDeletesLoadedRecipe(store: Dao.Store, id: int, types: seq<RecipeType>)
    requires Dao.Valid(store) && id in store
    ensures var r := Run(Load(InitialState, store, id, types), store, [DeleteIconClicked, DialogConfirmed]);
            && r.store.Keys == store.Keys - {id}
            && r.navigateBack && r.state.isRecipeDeleted && !r.state.showDeleteConfirmDialog
  {
    var st := Load(InitialState, store, id, types);
    var shown := Dispatch(st, store, DeleteIconClicked);
    assert shown.state.showDeleteConfirmDialog && shown.state.recipe == Some(store[id]);
    ConfirmDeletesAndNavigatesBack(shown.state, store);
    assert [DeleteIconClicked, DialogConfirmed][1..] == [DialogConfirmed];
    assert [DialogConfirmed][1..] == [];
  }
}
