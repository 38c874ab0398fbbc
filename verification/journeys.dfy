/**
 * Properties that span screens: opening a listed recipe, a created recipe
 * showing up in the list, and a deleted recipe leaving it. Each screen
 * reads the same table.
 */
module Journeys {
  import opened Wrappers
  import opened LongText
  import opened RecipeModel
  import opened RecipeForm
  import Dao = RecipeDao
  import Create = CreateRecipe
  import Detail = RecipeDetail
  import List = RecipeList
  import Navigation

  /**
   * Clicking the `i`-th listed item navigates to a route whose argument
   * opens that very recipe on the detail screen, with its draft derived from it.
   */
  lemma {:induction false} ListClickOpensThatRecipe(store: Dao.Store, vm: List.RecipeListVm,
                                                    types: seq<RecipeType>, i: int)
    requires Dao.Valid(store) && forall k :: k in store ==> IsLong(k)
    requires 0 <= i < |List.Snapshot(vm, store).recipes|
    ensures var ui := List.Snapshot(vm, store);
            var body := List.Body(ui);
            && body.Items?
            && var id := Navigation.DetailRouteId(Navigation.CreateRoute(body.items[i].id));
            && id == Some(ui.recipes[i].id)
            && var shown := Detail.Load(Detail.InitialState, store, id.value, types);
            && shown.recipe == Some(ui.recipes[i])
            && shown.formData.name == ui.recipes[i].name
  {
    var ui := List.Snapshot(vm, store);
    var rec := ui.recipes[i];
    assert rec in ui.recipes;
    var k :| k in store && store[k] == rec;
    Navigation.RouteRoundTrip(rec.id);
  }

  /**
   * A recipe saved on the create screen is listed afterwards, both with no
   * filter and under the filter of its type.
   */
  lemma CreatedRecipeIsListed(st: Create.CreateRecipeUiState, store: Dao.Store, vm: List.RecipeListVm)
    requires IsFormValid(st.formData)
    ensures var saved := Create.SaveRecipe(st, store);
            var f := st.formData;
            exists rec: Recipe :: rec.name == f.name && rec.recipeTypeId == f.selectedType.value.id
                          && rec.ingredients == f.ingredients && rec.steps == f.steps && rec.imageUri == f.imageUri
                          && rec.id !in store
                          && rec in List.Snapshot(List.OnFilterChanged(vm, None), saved.store).recipes
                          && rec in List.Snapshot(List.OnFilterChanged(vm, f.selectedType), saved.store).recipes
  {
    var saved := Create.SaveRecipe(st, store);
    var f := st.formData;
    var id :| id !in store && id in saved.store && saved.store[id] ==
      Recipe(UnassignedId, f.name, f.selectedType.value.id, f.ingredients, f.steps, f.imageUri).(id := id);
    assert saved.store[id] in saved.store.Values;
  }

  /** After the detail screen's confirmed delete, no snapshot of the list shows a row with that id. */
  lemma DeletedRecipeLeavesList(st: Detail.RecipeDetailUiState, store: Dao.Store, vm: List.RecipeListVm)
    requires Dao.Valid(store) && st.showDeleteConfirmDialog && st.recipe.Some?
    ensures var after := Detail.Dispatch(st, store, Detail.DialogConfirmed).store;
            forall rec :: rec in List.Snapshot(vm, after).recipes ==> rec.id != st.recipe.value.id
  {
    var after := Detail.Dispatch(st, store, Detail.DialogConfirmed).store;
    forall rec | rec in List.Snapshot(vm, after).recipes ensures rec.id != st.recipe.value.id {
      var k :| k in after && after[k] == rec;
    }
  }
}
