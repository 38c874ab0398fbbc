/**
 * `RecipeListViewModel` and the pure parts of `RecipeListScreen`. The
 * combined flow is collapsed into a snapshot: the query the current filter
 * selects, evaluated on the current table, together with the catalog and
 * the filter.
 */
module RecipeList {
  import opened Wrappers
  import opened RecipeModel
  import Dao = RecipeDao
  import Repo = RecipeRepository

  datatype RecipeListUiState = RecipeListUiState(
    recipes: seq<Recipe>,
    recipeTypes: seq<RecipeType>,
    selectedType: Option<RecipeType>,
    isLoading: bool
  )

  /** `RecipeListUiState(isLoading = true)`: the value shown before the first combined emission. */
  const LoadingState: RecipeListUiState := RecipeListUiState([], [], None, true)

  /** The view-model's two inputs: the selected filter and the loaded catalog. */
  datatype RecipeListVm = RecipeListVm(selectedType: Option<RecipeType>, recipeTypes: seq<RecipeType>)

  /** No filter and an empty catalog, as the view-model starts. */
  const InitialVm: RecipeListVm := RecipeListVm(None, [])

  /** The `init` coroutine: the loaded catalog replaces the empty one. */
  function OnTypesLoaded(vm: RecipeListVm, types: seq<RecipeType>): (r: RecipeListVm)
    ensures r.recipeTypes == types && r.selectedType == vm.selectedType
  {
    vm.(recipeTypes := types)
  }

  /** `onFilterChanged`. */
  function OnFilterChanged(vm: RecipeListVm, t: Option<RecipeType>): (r: RecipeListVm)
    ensures r.selectedType == t && r.recipeTypes == vm.recipeTypes
  {
    vm.(selectedType := t)
  }

  /** The query `flatMapLatest` switches to: all rows with no filter, the filter's rows otherwise. */
  function ActiveQuery(store: Dao.Store, filter: Option<RecipeType>): (rows: seq<Recipe>)
    ensures forall rec :: rec in rows <==>
              rec in store.Values && (filter.None? || rec.recipeTypeId == filter.value.id)
    ensures filter.None? ==> |rows| == |store|
  {
    match filter
    case None => Repo.GetAllRecipes(store)
    case Some(t) => Repo.GetRecipesByType(store, t.id)
  }

  /** The combined emission for the current filter, catalog and table. */
  function Snapshot(vm: RecipeListVm, store: Dao.Store): (ui: RecipeListUiState)
    ensures !ui.isLoading
    ensures ui.selectedType == vm.selectedType && ui.recipeTypes == vm.recipeTypes
    ensures forall rec :: rec in ui.recipes <==>
              rec in store.Values && (vm.selectedType.None? || rec.recipeTypeId == vm.selectedType.value.id)
    ensures vm.selectedType.None? ==> |ui.recipes| == |store|
  {
    RecipeListUiState(ActiveQuery(store, vm.selectedType), vm.recipeTypes, vm.selectedType, false)
  }

  /** Before a filter is chosen, the loaded snapshot lists every row and the whole catalog. */
  lemma InitialSnapshotListsAll(store: Dao.Store, types: seq<RecipeType>)
    ensures Snapshot(OnTypesLoaded(InitialVm, types), store)
            == RecipeListUiState(Dao.GetAllRecipes(store), types, None, false)
  {
  }

  /**
   * Switching the filter from `a` to `b` lists exactly `b`'s rows: none of
   * `a`'s rows of another type remain, and the result does not depend on the
   * earlier filter at all.
   */
  lemma FilterSwitchLeavesNoResidue(vm: RecipeListVm, store: Dao.Store, a: RecipeType, b: RecipeType)
    ensures var ui := Snapshot(OnFilterChanged(OnFilterChanged(vm, Some(a)), Some(b)), store);
            && ui.recipes == Dao.GetRecipesByType(store, b.id)
            && (forall rec :: rec in ui.recipes ==> rec.recipeTypeId == b.id)
            && (a.id != b.id ==> forall rec :: rec in Dao.GetRecipesByType(store, a.id) ==> rec !in ui.recipes)
            && ui == Snapshot(OnFilterChanged(vm, Some(b)), store)
  {
  }

  /** Clearing the filter lists every row again, whatever filter was active. */
  lemma ClearingFilterListsAll(vm: RecipeListVm, store: Dao.Store)
    ensures Snapshot(OnFilterChanged(vm, None), store).recipes == Dao.GetAllRecipes(store)
  {
  }

  /** A filtered snapshot is the unfiltered one restricted to the filter's type. */
  lemma FilteredIsSubsetOfAll(vm: RecipeListVm, store: Dao.Store, t: RecipeType)
    ensures forall rec :: rec in Snapshot(OnFilterChanged(vm, Some(t)), store).recipes <==>
              rec in Snapshot(OnFilterChanged(vm, None), store).recipes && rec.recipeTypeId == t.id
  {
  }

  // ---- RecipeListScreen ----

  const AllRecipesText: string := "All Recipes"
  const EmptyListText: string := "No recipes found. Add one!"

  /** `RecipeListItem`'s title: `name (typeName)`, or the bare name when the type is unresolved or unnamed. */
  function ItemLabel(recipe: Recipe, recipeType: Option<RecipeType>): (title: string)
    ensures |title| >= |recipe.name| && title[..|recipe.name|] == recipe.name
    ensures recipeType.Some? && recipeType.value.name != "" ==>
              title == recipe.name + " (" + recipeType.value.name + ")"
    ensures recipeType.None? || recipeType.value.name == "" ==> title == recipe.name
  {
    var typeText := match recipeType
      case Some(t) => t.name
      case None => "";
    if |typeText| > 0 then recipe.name + " (" + typeText + ")" else recipe.name
  }

  /** One row of the list: the id a click navigates with, and the title shown. */
  datatype ListItem = ListItem(id: int, title: string)

  /** The list body: a spinner, the empty message, or the items. */
  datatype ListBody = Spinner | EmptyMessage(message: string) | Items(items: seq<ListItem>)

  function ItemOf(rec: Recipe, types: seq<RecipeType>): ListItem {
    ListItem(rec.id, ItemLabel(rec, FindType(types, rec.recipeTypeId)))
  }

  /** The body selection rule and the items it lists, one per recipe in order, each resolving its type by id. */
  function Body(ui: RecipeListUiState): (b: ListBody)
    ensures b.Spinner? <==> ui.isLoading
    ensures b.EmptyMessage? <==> !ui.isLoading && |ui.recipes| == 0
    ensures b.EmptyMessage? ==> b.message == EmptyListText
    ensures b.Items? ==> |b.items| == |ui.recipes| > 0
    ensures b.Items? ==> forall i :: 0 <= i < |b.items| ==>
              b.items[i].id == ui.recipes[i].id &&
              b.items[i].title == ItemLabel(ui.recipes[i], FindType(ui.recipeTypes, ui.recipes[i].recipeTypeId))
  {
    if ui.isLoading then Spinner
    else if |ui.recipes| == 0 then EmptyMessage(EmptyListText)
    else Items(seq(|ui.recipes|, i requires 0 <= i < |ui.recipes| => ItemOf(ui.recipes[i], ui.recipeTypes)))
  }

  /** The filter field's text: the selected type's name, or "All Recipes" with no filter. */
  function FilterText(selected: Option<RecipeType>): (text: string)
    ensures selected.Some? ==> text == selected.value.name
    ensures selected.None? ==> text == AllRecipesText
  {
    match selected
    case Some(t) => t.name
    case None => AllRecipesText
  }

  /** The filter dropdown's entries: "All Recipes" (no filter) first, then every catalog entry in order. */
  function FilterOptions(types: seq<RecipeType>): (opts: seq<Option<RecipeType>>)
    ensures |opts| == |types| + 1 && opts[0].None?
    ensures forall i :: 0 <= i < |types| ==> opts[i + 1] == Some(types[i])
  {
    [None] + seq(|types|, i requires 0 <= i < |types| => Some(types[i]))
  }

  /** Picking entry `i` of the dropdown makes it the filter, and the field then shows that entry's text. */
  lemma ChoosingFilterOption(vm: RecipeListVm, i: int)
    requires 0 <= i < |FilterOptions(vm.recipeTypes)|
    ensures var chosen := OnFilterChanged(vm, FilterOptions(vm.recipeTypes)[i]);
            && (i == 0 ==> chosen.selectedType.None? && FilterText(chosen.selectedType) == AllRecipesText)
            && (i > 0 ==> chosen.selectedType == Some(vm.recipeTypes[i - 1])
                          && FilterText(chosen.selectedType) == vm.recipeTypes[i - 1].name)
  {
  }

  /**
   * Before the first combined emission the screen shows the spinner under
   * "All Recipes"; once the table has been read, an empty table shows the
   * empty-list message.
   */
  lemma FirstFrames(vm: RecipeListVm)
    ensures Body(LoadingState) == Spinner && FilterText(LoadingState.selectedType) == AllRecipesText
    ensures Body(Snapshot(vm, Dao.Empty)) == EmptyMessage(EmptyListText)
  {
  }

  /** A recipe whose type id names no catalog entry is listed under its bare name. */
  lemma DanglingTypeShowsBareName(rec: Recipe, types: seq<RecipeType>)
    requires !HasType(types, rec.recipeTypeId)
    ensures ItemOf(rec, types).title == rec.name
  {
  }

  /** The sample table of the list view-model's unit test: two recipes of types 1 and 2. */
  const Pancakes: Recipe := Recipe(1, "Pancakes", 1, "", "", None)
  const Salad: Recipe := Recipe(2, "Salad", 2, "", "", None)

  /** The unit test's scenario: first every recipe in id order, then only type 1 after filtering by it. */
  lemma {:induction false} SampleFilterScenario(types: seq<RecipeType>)
    requires |types| > 0 && types[0].id == 1
    ensures var store := map[1 := Pancakes, 2 := Salad];
            var loaded := OnTypesLoaded(InitialVm, types);
            && Snapshot(loaded, store) == RecipeListUiState([Pancakes, Salad], types, None, false)
            && Snapshot(OnFilterChanged(loaded, Some(types[0])), store).recipes == [Pancakes]
  {
    var store := map[1 := Pancakes, 2 := Salad];
    assert Dao.Valid(store);
    var all := Dao.GetAllRecipes(store);
    assert |all| == 2;
    assert Pancakes in all && Salad in all;
    assert all[0].id < all[1].id;
    assert all == [Pancakes, Salad];
    var byType := Dao.GetRecipesByType(store, 1);
    assert all[1..] == [Salad] && all[1..][1..] == [];
    assert Dao.WithType([Salad], 1) == [];
    assert byType == [Pancakes];
  }
}
