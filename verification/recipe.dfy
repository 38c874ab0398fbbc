/** The `Recipe` entity of the `recipes` table and the read-only `RecipeType` catalog entry. */
module RecipeModel {
  import opened Wrappers

  /**
   * One row of the `recipes` table. `id` is the auto-generated primary key
   * (a `Long`); `recipeTypeId` is a plain `Int` with no foreign-key constraint,
   * so it may name no catalog entry at all.
   */
  datatype Recipe = Recipe(
    id: int,
    name: string,
    recipeTypeId: int,
    ingredients: string,
    steps: string,
    imageUri: Option<string>
  )

  /** An entry of the bundled recipe-type catalog. */
  datatype RecipeType = RecipeType(id: int, name: string)

  /** The id a recipe carries before the database has assigned one. */
  const UnassignedId: int := 0

  /**
   * The `Recipe(name = …, recipeTypeId = …, …)` constructor call that leaves
   * `id` (and possibly `imageUri`) at its default.
   */
  function NewRecipe(name: string, recipeTypeId: int, ingredients: string, steps: string,
                     imageUri: Option<string>): (r: Recipe)
    ensures r.id == UnassignedId
    ensures r.name == name && r.recipeTypeId == recipeTypeId
    ensures r.ingredients == ingredients && r.steps == steps && r.imageUri == imageUri
  {
    Recipe(UnassignedId, name, recipeTypeId, ingredients, steps, imageUri)
  }

  /** Some catalog entry carries `id`. */
  predicate HasType(types: seq<RecipeType>, id: int) {
    exists i :: 0 <= i < |types| && types[i].id == id
  }

  /**
   * `types.find { it.id == id }`: the first catalog entry carrying `id`, or
   * `None` when the id is dangling.
   */
  function FindType(types: seq<RecipeType>, id: int): (r: Option<RecipeType>)
    ensures r.None? <==> !HasType(types, id)
    ensures r.Some? ==> r.value.id == id
    ensures r.Some? ==> exists i :: 0 <= i < |types| && types[i] == r.value
                                   && forall j :: 0 <= j < i ==> types[j].id != id
    decreases |types|
  {
    if |types| == 0 then None
    else if types[0].id == id then Some(types[0])
    else
      var r := FindType(types[1..], id);
      assert HasType(types, id) ==> HasType(types[1..], id) by {
        if HasType(types, id) {
          var i :| 0 <= i < |types| && types[i].id == id;
          assert types[1..][i - 1].id == id;
        }
      }
      if r.Some? then
        var i :| 0 <= i < |types[1..]| && types[1..][i] == r.value
                 && forall j :: 0 <= j < i ==> types[1..][j].id != id;
        assert types[i + 1] == r.value;
        assert forall j :: 0 <= j < i + 1 ==> types[j].id != id by {
          forall j | 0 <= j < i + 1 ensures types[j].id != id {
            if j > 0 { assert types[j] == types[1..][j - 1]; }
          }
        }
        r
      else
        r
  }
}
