/** The navigation routes of `Screen` and the detail route's `{recipeId}` argument. */
module Navigation {
  import opened Wrappers
  import opened LongText

  const RecipeListRoute: string := "recipe_list"
  const CreateRecipeRoute: string := "create_recipe"
  const RecipeDetailRoute: string := "recipe_detail/{recipeId}"

  const DetailPrefix: string := "recipe_detail/"
  const RecipeIdPlaceholder: string := "{recipeId}"

  /** `RecipeDetail.createRoute(recipeId)`: the string template `"recipe_detail/$recipeId"`. */
  function CreateRoute(recipeId: int): (route: string)
    ensures |route| > |DetailPrefix| && route[..|DetailPrefix|] == DetailPrefix
  {
    DetailPrefix + Render(recipeId)
  }

  /** `value` starts with `0x`. */
  predicate HasHexPrefix(value: string) {
    |value| >= 2 && value[..2] == "0x"
  }

  /** `value` ends with `L`. */
  predicate HasLongSuffix(value: string) {
    |value| > 0 && value[|value| - 1] == 'L'
  }

  /**
   * `NavType.LongType.parseValue`: an optional trailing `L` is dropped; then
   * text that starts with `0x` is read in radix 16 from its third character,
   * and anything else in radix 10.
   */
  function NavLongValue(value: string): (r: Option<int>)
    ensures r.Some? ==> IsLong(r.value)
    ensures !HasHexPrefix(value) && !HasLongSuffix(value) ==> r == ParseLong(value)
    ensures !HasHexPrefix(value) && HasLongSuffix(value) ==> r == ParseLong(value[..|value| - 1])
    ensures HasHexPrefix(value) && !HasLongSuffix(value) ==> r == ParseLongRadix(value[2..], 16)
    ensures HasHexPrefix(value) && HasLongSuffix(value) ==> r == ParseLongRadix(value[2..|value| - 1], 16)
  {
    var local := if HasLongSuffix(value) then value[..|value| - 1] else value;
    if HasHexPrefix(value) then
      assert |value| > 2 || value[1] != 'L' by {
        assert value[1] == value[..2][1] == 'x';
      }
      ParseLongRadix(local[2..], 16)
    else
      ParseLong(local)
  }

  /**
   * The detail route's argument, read back as the navigation graph declares
   * it (`NavType.LongType`): the text after the prefix, parsed as a `Long`.
   */
  function DetailRouteId(route: string): (id: Option<int>)
    ensures id.Some? ==> IsLong(id.value)
    ensures id.Some? ==> |route| > |DetailPrefix| && route[..|DetailPrefix|] == DetailPrefix
  {
    if |route| >= |DetailPrefix| && route[..|DetailPrefix|] == DetailPrefix
    then NavLongValue(route[|DetailPrefix|..])
    else None
  }

  /**
   * The argument forms `NavType.LongType` accepts beyond plain decimal text:
   * a trailing `L`, and hexadecimal after `0x` (with or without the `L`).
   */
  lemma NavLongForms(n: int)
    requires IsLong(n)
    ensures NavLongValue(Render(n)) == Some(n)
    ensures NavLongValue(Render(n) + "L") == Some(n)
  {
    var s := Render(n);
    LongRoundTrip(n);
    assert !HasHexPrefix(s) by {
      if |s| >= 2 { assert s[0] == '-' || s[0] != '0'; }
    }
    assert !HasLongSuffix(s);
    var t := s + "L";
    assert HasLongSuffix(t) && t[..|t| - 1] == s;
    assert !HasHexPrefix(t) by {
      if |t| >= 2 {
        assert t[..2] == (if |s| >= 2 then s[..2] else s + "L");
      }
    }
  }

  /** Hexadecimal after `0x`, in either letter case and with or without the `L`; a bare `L` or `0x` is rejected. */
  lemma NavLongHexExamples()
    ensures NavLongValue("0x1F") == Some(31) && NavLongValue("0x1fL") == Some(31)
    ensures NavLongValue("0x-10") == Some(-16)
    ensures NavLongValue("L") == None && NavLongValue("0x") == None && NavLongValue("0xL") == None
  {
    assert "1F"[..1] == "1" && "1"[..0] == "";
    assert "0x1fL"[2..4] == "1f" && "1f"[..1] == "1";
    assert "0x-10"[2..] == "-10" && "-10"[1..] == "10" && "10"[..1] == "1";
  }

  /** `s` with the first occurrence of `key` replaced by `value`. */
  function ReplaceFirst(s: string, key: string, value: string): string
    requires |key| > 0
    decreases |s|
  {
    if |s| < |key| then s
    else if s[..|key|] == key then value + s[|key|..]
    else [s[0]] + ReplaceFirst(s[1..], key, value)
  }

  lemma {:induction false} ReplaceAfterPrefix(p: string, key: string, value: string)
    requires |key| > 0 && key[0] !in p
    ensures ReplaceFirst(p + key, key, value) == p + value
    decreases |p|
  {
    if |p| > 0 {
      assert (p + key)[..|key|] != key by {
        assert (p + key)[0] == p[0] != key[0];
      }
      assert (p + key)[1..] == p[1..] + key;
      ReplaceAfterPrefix(p[1..], key, value);
    } else {
      assert p + key == key;
    }
  }

  /** `createRoute(id)` is the detail route template with `{recipeId}` filled in by the id's decimal text. */
  lemma CreateRouteFillsTemplate(recipeId: int)
    ensures CreateRoute(recipeId) == ReplaceFirst(RecipeDetailRoute, RecipeIdPlaceholder, Render(recipeId))
  {
    assert RecipeDetailRoute == DetailPrefix + RecipeIdPlaceholder;
    ReplaceAfterPrefix(DetailPrefix, RecipeIdPlaceholder, Render(recipeId));
  }

  /** Route round trip: the id a detail route was built from is the id the detail screen receives. */
  lemma RouteRoundTrip(recipeId: int)
    requires IsLong(recipeId)
    ensures DetailRouteId(CreateRoute(recipeId)) == Some(recipeId)
  {
    var route := CreateRoute(recipeId);
    assert route[|DetailPrefix|..] == Render(recipeId);
    LongRoundTrip(recipeId);
  }

  /** Distinct ids give distinct detail routes. */
  lemma CreateRouteInjective(a: int, b: int)
    ensures CreateRoute(a) == CreateRoute(b) ==> a == b
  {
    if CreateRoute(a) == CreateRoute(b) {
      assert Render(a) == CreateRoute(a)[|DetailPrefix|..];
      assert Render(b) == CreateRoute(b)[|DetailPrefix|..];
      RenderInjective(a, b);
    }
  }

  /** The three route patterns are pairwise distinct, and no built detail route equals the other two. */
  lemma RoutesDistinct(recipeId: int)
    ensures RecipeListRoute != CreateRecipeRoute
    ensures RecipeListRoute != RecipeDetailRoute && CreateRecipeRoute != RecipeDetailRoute
    ensures CreateRoute(recipeId) != RecipeListRoute && CreateRoute(recipeId) != CreateRecipeRoute
  {
    assert RecipeListRoute[0] != CreateRecipeRoute[0];
    assert RecipeListRoute[7] != RecipeDetailRoute[7];
    assert CreateRecipeRoute[0] != RecipeDetailRoute[0];
    assert CreateRoute(recipeId)[7] != RecipeListRoute[7];
    assert CreateRoute(recipeId)[0] != CreateRecipeRoute[0];
  }
}
