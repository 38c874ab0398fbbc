/**
 * The Room DAO over the single `recipes` table, with each query evaluated
 * once on the current contents of the table. The table is a map from primary
 * key to row.
 */
module RecipeDao {
  import opened Wrappers
  import opened RecipeModel

  type Store = map<int, Recipe>

  /** The table's invariant: each row is stored under its own id, and no row has the unassigned id. */
  predicate Valid(s: Store) {
    forall k :: k in s ==> s[k].id == k && k != UnassignedId
  }

  const Empty: Store := map[]

  predicate IsLeast(m: int, ks: set<int>) {
    m in ks && forall k :: k in ks ==> m <= k
  }

  /** A set other than the empty set has a member. */
  lemma HasElement(ks: set<int>)
    ensures ks == {} || exists k :: k in ks
  {
    if forall k :: k !in ks {
      assert ks == {};
    }
  }

  lemma {:induction false} MinExists(ks: set<int>)
    requires ks != {}
    ensures exists m :: IsLeast(m, ks)
    decreases ks
  {
    HasElement(ks);
    var x :| x in ks;
    var rest := ks - {x};
    if rest == {} {
      assert ks == {x};
      assert IsLeast(x, ks);
    } else {
      MinExists(rest);
      var m :| IsLeast(m, rest);
      var least := if x < m then x else m;
      forall k | k in ks ensures least <= k {
        if k != x {
          assert k in rest;
        }
      }
      assert IsLeast(least, ks);
    }
  }

  /** The least key of a non-empty key set. */
  function SetMin(ks: set<int>): (m: int)
    requires ks != {}
    ensures m in ks && forall k :: k in ks ==> m <= k
  {
    MinExists(ks);
    var m :| IsLeast(m, ks);
    m
  }

  predicate StrictlyIncreasing(xs: seq<int>) {
    forall i, j :: 0 <= i < j < |xs| ==> xs[i] < xs[j]
  }

  /** The keys in ascending order: the scan order this model gives an unordered `SELECT`. */
  function Ascending(ks: set<int>): (r: seq<int>)
    ensures StrictlyIncreasing(r)
    ensures forall k :: k in r <==> k in ks
    ensures |r| == |ks|
    decreases ks
  {
    if ks == {} then []
    else
      var m := SetMin(ks);
      var rest := Ascending(ks - {m});
      assert forall k :: k in rest ==> m < k;
      [m] + rest
  }

  /**
   * The id SQLite's `AUTOINCREMENT` gives a row inserted without one: larger
   * than every id in the table and never the unassigned id.
   */
  function NextId(s: Store): (id: int)
    ensures id != UnassignedId && id > 0
    ensures forall k :: k in s ==> k < id
    ensures id !in s
  {
    var ks := Ascending(s.Keys);
    if |ks| == 0 then 1
    else
      var top := ks[|ks| - 1];
      assert forall k :: k in s ==> k <= top by {
        forall k | k in s ensures k <= top {
          var i :| 0 <= i < |ks| && ks[i] == k;
          assert i == |ks| - 1 || ks[i] < top;
        }
      }
      (if top < 0 then 0 else top) + 1
  }

  predicate IdsAscending(rs: seq<Recipe>) {
    forall i, j :: 0 <= i < j < |rs| ==> rs[i].id < rs[j].id
  }

  /** `SELECT * FROM recipes`: every row once. The source promises no order; this model lists rows by id. */
  function GetAllRecipes(s: Store): (r: seq<Recipe>)
    ensures |r| == |s|
    ensures forall rec :: rec in r <==> rec in s.Values
    ensures Valid(s) ==> IdsAscending(r)
  {
    var ks := Ascending(s.Keys);
    var r := seq(|ks|, i requires 0 <= i < |ks| => s[ks[i]]);
    assert forall rec :: rec in s.Values ==> rec in r by {
      forall rec | rec in s.Values ensures rec in r {
        var k :| k in s && s[k] == rec;
        var i :| 0 <= i < |ks| && ks[i] == k;
        assert r[i] == rec;
      }
    }
    assert |s.Keys| == |s|;
    r
  }

  /** The rows of `rs` whose `recipeTypeId` is `t`, in their order in `rs`. */
  function WithType(rs: seq<Recipe>, t: int): (r: seq<Recipe>)
    ensures forall rec :: rec in r <==> rec in rs && rec.recipeTypeId == t
    ensures |r| <= |rs|
    ensures IdsAscending(rs) ==> IdsAscending(r)
    decreases |rs|
  {
    if |rs| == 0 then []
    else
      var rest := WithType(rs[1..], t);
      assert IdsAscending(rs) ==> IdsAscending(rs[1..]) && forall rec :: rec in rest ==> rs[0].id < rec.id by {
        if IdsAscending(rs) {
          AscendingHeadBelowTail(rs);
        }
      }
      if rs[0].recipeTypeId == t then [rs[0]] + rest else rest
  }

  /** In an id-ascending list the tail is id-ascending and every row of it has a larger id than the head. */
  lemma AscendingHeadBelowTail(rs: seq<Recipe>)
    requires |rs| > 0 && IdsAscending(rs)
    ensures IdsAscending(rs[1..])
    ensures forall rec :: rec in rs[1..] ==> rs[0].id < rec.id
  {
    forall rec | rec in rs[1..] ensures rs[0].id < rec.id {
      var i :| 0 <= i < |rs[1..]| && rs[1..][i] == rec;
      assert rs[i + 1] == rec;
    }
  }

  /** `SELECT * FROM recipes WHERE recipeTypeId = :typeId`: exactly the rows of that type. */
  function GetRecipesByType(s: Store, typeId: int): (r: seq<Recipe>)
    ensures forall rec :: rec in r <==> rec in s.Values && rec.recipeTypeId == typeId
    ensures |r| <= |s|
    ensures Valid(s) ==> IdsAscending(r)
  {
    WithType(GetAllRecipes(s), typeId)
  }

  /** `SELECT * FROM recipes WHERE id = :id`: the row with that id, or `None`. */
  function GetRecipeById(s: Store, id: int): (r: Option<Recipe>)
    ensures r.Some? <==> id in s
    ensures r.Some? ==> r.value in s.Values
    ensures Valid(s) && r.Some? ==> r.value.id == id
  {
    if id in s then Some(s[id]) else None
  }

  /** `after` holds `rec` under an id that `before` did not use. */
  predicate HasNewRow(before: Store, after: Store, rec: Recipe) {
    exists id :: id !in before && id in after && after[id] == rec.(id := id)
  }

  /** What `insertRecipe` leaves behind: the new table and the row id it returns. */
  datatype Inserted = Inserted(store: Store, id: int)

  /**
   * `@Insert(onConflict = REPLACE)`: an unassigned id is replaced by a fresh
   * one, any other id is kept; a row already holding that id is replaced.
   */
  function InsertRecipe(s: Store, rec: Recipe): (r: Inserted)
    ensures rec.id != UnassignedId ==> r.id == rec.id
    ensures rec.id == UnassignedId ==> r.id !in s && r.id != UnassignedId
    ensures r.id in r.store && r.store[r.id] == rec.(id := r.id)
    ensures forall k :: k != r.id ==> (k in r.store <==> k in s)
    ensures forall k :: k in s && k != r.id ==> r.store[k] == s[k]
    ensures Valid(s) ==> Valid(r.store)
  {
    var id := if rec.id == UnassignedId then NextId(s) else rec.id;
    Inserted(s[id := rec.(id := id)], id)
  }

  /** `@Update`: overwrites the row with the same id; with no such row nothing changes. */
  function UpdateRecipe(s: Store, rec: Recipe): (r: Store)
    ensures r.Keys == s.Keys
    ensures rec.id in s ==> r[rec.id] == rec
    ensures forall k :: k in s && k != rec.id ==> r[k] == s[k]
    ensures rec.id !in s ==> r == s
    ensures Valid(s) ==> Valid(r)
  {
    if rec.id in s then s[rec.id := rec] else s
  }

  /** `@Delete`: removes the row whose id is the recipe's id; the other fields are not compared. */
  function DeleteRecipe(s: Store, rec: Recipe): (r: Store)
    ensures r.Keys == s.Keys - {rec.id}
    ensures forall k :: k in r ==> r[k] == s[k]
    ensures Valid(s) ==> Valid(r)
  {
    s - {rec.id}
  }

  /** The point lookup and the all-rows query agree on which row carries an id. */
  lemma GetByIdAgreesWithAll(s: Store, id: int, rec: Recipe)
    requires Valid(s)
    ensures GetRecipeById(s, id) == Some(rec) <==> rec in GetAllRecipes(s) && rec.id == id
    ensures GetRecipeById(s, id).None? <==> forall x :: x in GetAllRecipes(s) ==> x.id != id
  {
    if GetRecipeById(s, id).None? {
      forall x | x in GetAllRecipes(s) ensures x.id != id {
        var k :| k in s && s[k] == x;
      }
    } else {
      assert s[id] in GetAllRecipes(s);
    }
  }

  /** Every stored row is listed under its own type and under no other. */
  lemma ByTypePartitionsAll(s: Store, rec: Recipe, t: int)
    requires rec in GetAllRecipes(s)
    ensures rec in GetRecipesByType(s, t) <==> rec.recipeTypeId == t
  {
  }

  /** Inserting without an id always adds exactly one row. */
  lemma InsertUnassignedAddsOneRow(s: Store, rec: Recipe)
    requires rec.id == UnassignedId
    ensures |GetAllRecipes(InsertRecipe(s, rec).store)| == |GetAllRecipes(s)| + 1
  {
    var r := InsertRecipe(s, rec);
    assert r.store == s[r.id := rec.(id := r.id)];
  }

  /** After a delete no listed row carries the deleted id, and one row fewer is listed iff the id was stored. */
  lemma DeleteRemovesFromAll(s: Store, rec: Recipe)
    requires Valid(s)
    ensures forall x :: x in GetAllRecipes(DeleteRecipe(s, rec)) ==> x.id != rec.id
    ensures |GetAllRecipes(DeleteRecipe(s, rec))| == if rec.id in s then |s| - 1 else |s|
  {
    var r := DeleteRecipe(s, rec);
    forall x | x in GetAllRecipes(r) ensures x.id != rec.id {
      var k :| k in r && r[k] == x;
    }
    assert r == s - {rec.id};
  }
}
