/**
 * `CreateRecipeViewModel` as pure transitions over `CreateRecipeUiState`.
 * Each `viewModelScope.launch` body is one atomic step; the repository is the
 * table it reads and writes, and the catalog it loads is a parameter.
 */
module CreateRecipe {
  import opened Wrappers
  import opened KotlinText
  import opened RecipeModel
  import opened RecipeForm
  import Dao = RecipeDao
  import Repo = RecipeRepository

  datatype CreateRecipeUiState = CreateRecipeUiState(
    formData: RecipeFormData,
    recipeTypes: seq<RecipeType>,
    isRecipeSaved: bool
  )

  /** `CreateRecipeUiState()`. */
  const InitialState: CreateRecipeUiState := CreateRecipeUiState(EmptyForm, [], false)

  /** The `init` coroutine: store the loaded catalog and pre-select its first entry. */
  function OnTypesLoaded(st: CreateRecipeUiState, types: seq<RecipeType>): (r: CreateRecipeUiState)
    ensures r.recipeTypes == types
    ensures r.formData.selectedType.None? <==> |types| == 0
    ensures r.formData.selectedType.Some? ==> r.formData.selectedType.value == types[0]
    ensures r.formData.(selectedType := st.formData.selectedType) == st.formData
    ensures r.isRecipeSaved == st.isRecipeSaved
  {
    st.(recipeTypes := types, formData := st.formData.(selectedType := FirstOrNull(types)))
  }

  /** `onFormDataChange`. */
  function OnFormDataChange(st: CreateRecipeUiState, f: RecipeFormData): (r: CreateRecipeUiState)
    ensures r.formData == f
    ensures r.(formData := st.formData) == st
  {
    st.(formData := f)
  }

  /** The recipe `saveRecipe` builds from a valid draft: no id yet, every field from the form. */
  function RecipeFromForm(f: RecipeFormData): (r: Recipe)
    requires f.selectedType.Some?
    ensures r.id == UnassignedId && r.recipeTypeId == f.selectedType.value.id
    ensures r.name == f.name && r.ingredients == f.ingredients && r.steps == f.steps && r.imageUri == f.imageUri
  {
    NewRecipe(f.name, f.selectedType.value.id, f.ingredients, f.steps, f.imageUri)
  }

  datatype SaveOutcome = SaveOutcome(state: CreateRecipeUiState, store: Dao.Store)

  /**
   * `saveRecipe`: with a non-blank name and a selected type, insert a new row
   * built from the draft and raise `isRecipeSaved`; otherwise do nothing.
   */
  function SaveRecipe(st: CreateRecipeUiState, store: Dao.Store): (r: SaveOutcome)
    ensures r.store != store <==> IsFormValid(st.formData)
    ensures !IsFormValid(st.formData) ==> r.state == st
    ensures IsFormValid(st.formData) ==> r.state == st.(isRecipeSaved := true)
    ensures IsFormValid(st.formData) ==>
      && |r.store| == |store| + 1
      && Dao.HasNewRow(store, r.store,
           Recipe(UnassignedId, st.formData.name, st.formData.selectedType.value.id,
                  st.formData.ingredients, st.formData.steps, st.formData.imageUri))
    ensures forall k :: k in store ==> k in r.store && r.store[k] == store[k]
    ensures Dao.Valid(store) ==> Dao.Valid(r.store)
  {
    var f := st.formData;
    if IsNotBlank(f.name) && f.selectedType.Some? then
      var added := Repo.AddRecipe(store, RecipeFromForm(f));
      assert added.id in added.store && added.id !in store;
      SaveOutcome(st.(isRecipeSaved := true), added.store)
    else
      SaveOutcome(st, store)
  }

  /** Loading the catalog into the initial state pre-selects its first entry and touches nothing else. */
  lemma InitPreselectsFirstType(types: seq<RecipeType>)
    requires |types| > 0
    ensures OnTypesLoaded(InitialState, types)
            == CreateRecipeUiState(EmptyForm.(selectedType := Some(types[0])), types, false)
  {
  }

  /** A blank name is never saved, whatever type is selected. */
  lemma BlankNameNeverSaves(st: CreateRecipeUiState, store: Dao.Store)
    requires IsBlank(st.formData.name)
    ensures SaveRecipe(st, store) == SaveOutcome(st, store)
  {
  }

  /**
   * The whole create flow: after the catalog loads and a non-blank name is
   * typed, saving adds one row carrying the pre-selected first type and
   * raises `isRecipeSaved`; with an empty catalog nothing is saved.
   */
  lemma CreateFlowSavesWithFirstType(types: seq<RecipeType>, name: string, store: Dao.Store)
    requires IsNotBlank(name)
    ensures var loaded := OnTypesLoaded(InitialState, types);
            var typed := OnFormDataChange(loaded, OnNameChange(loaded.formData, name));
            var saved := SaveRecipe(typed, store);
            && (saved.state.isRecipeSaved <==> |types| > 0)
            && (|types| > 0 ==>
                  && |saved.store| == |store| + 1
                  && Dao.HasNewRow(store, saved.store, Recipe(UnassignedId, name, types[0].id, "", "", None)))
            && (|types| == 0 ==> saved.store == store)
  {
  }
}
