/**
 * `RecipeRepositoryImpl`: the recipe half is a pass-through over the DAO;
 * the catalog half (`getRecipeTypes`) reads a bundled file and is given here
 * as a sequence instead.
 */
module RecipeRepository {
  import opened Wrappers
  import opened RecipeModel
  import Dao = RecipeDao

  function GetAllRecipes(s: Dao.Store): seq<Recipe> {
    Dao.GetAllRecipes(s)
  }

  function GetRecipesByType(s: Dao.Store, typeId: int): seq<Recipe> {
    Dao.GetRecipesByType(s, typeId)
  }

  function GetRecipe(s: Dao.Store, id: int): Option<Recipe> {
    Dao.GetRecipeById(s, id)
  }

  function AddRecipe(s: Dao.Store, recipe: Recipe): Dao.Inserted {
    Dao.InsertRecipe(s, recipe)
  }

  function UpdateRecipe(s: Dao.Store, recipe: Recipe): Dao.Store {
    Dao.UpdateRecipe(s, recipe)
  }

  function DeleteRecipe(s: Dao.Store, recipe: Recipe): Dao.Store {
    Dao.DeleteRecipe(s, recipe)
  }

  /** Every repository call is the DAO call with the same arguments, unvalidated and unchanged. */
  lemma PassThrough(s: Dao.Store, typeId: int, id: int, recipe: Recipe)
    ensures GetAllRecipes(s) == Dao.GetAllRecipes(s)
    ensures GetRecipesByType(s, typeId) == Dao.GetRecipesByType(s, typeId)
    ensures GetRecipe(s, id) == Dao.GetRecipeById(s, id)
    ensures AddRecipe(s, recipe).id == Dao.InsertRecipe(s, recipe).id
    ensures AddRecipe(s, recipe).store == Dao.InsertRecipe(s, recipe).store
    ensures UpdateRecipe(s, recipe) == Dao.UpdateRecipe(s, recipe)
    ensures DeleteRecipe(s, recipe) == Dao.DeleteRecipe(s, recipe)
  {
  }

  /** On an empty table, adding a recipe and listing all rows yields exactly that recipe, under its assigned id. */
  lemma AddThenListOnEmpty(recipe: Recipe)
    ensures var added := AddRecipe(Dao.Empty, recipe);
            var all := GetAllRecipes(added.store);
            |all| == 1 && all[0].name == recipe.name && all[0] == recipe.(id := added.id)
  {
    var added := AddRecipe(Dao.Empty, recipe);
    assert added.store == map[added.id := recipe.(id := added.id)];
    assert recipe.(id := added.id) in GetAllRecipes(added.store);
  }

  /**
   * On an empty table, adding a recipe that carries an id, deleting the same
   * recipe and listing all rows yields nothing.
   */
  lemma AddDeleteThenListOnEmpty(recipe: Recipe)
    requires recipe.id != UnassignedId
    ensures GetAllRecipes(DeleteRecipe(AddRecipe(Dao.Empty, recipe).store, recipe)) == []
  {
    var added := AddRecipe(Dao.Empty, recipe);
    assert DeleteRecipe(added.store, recipe) == map[];
  }

  /**
   * Deleting goes by id alone: deleting the very recipe object that was added
   * without an id leaves the added row in place, since the row got a fresh id.
   */
  lemma DeleteOfUnassignedRecipeKeepsRow(recipe: Recipe)
    requires recipe.id == UnassignedId
    ensures |GetAllRecipes(DeleteRecipe(AddRecipe(Dao.Empty, recipe).store, recipe))| == 1
  {
    var added := AddRecipe(Dao.Empty, recipe);
    assert DeleteRecipe(added.store, recipe) == added.store;
    assert added.store == map[added.id := recipe.(id := added.id)];
  }
}
