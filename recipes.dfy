/**
 * The recipe catalog of the workshop (class RecipeManager in Project.cpp):
 * an ordered list of recipes whose names are pairwise distinct.
 */
module Recipes {
  import opened Wrappers

  /** A recipe: its potion name and its ordered ingredient list (repeats allowed). */
  datatype PotionRecipe = PotionRecipe(potionName: string, ingredients: seq<string>)

  /** The names registered in a catalog. */
  function Names(recipes: seq<PotionRecipe>): set<string>
  {
    set r | r in recipes :: r.potionName
  }

  /** No two entries of the catalog share a name. */
  ghost predicate DistinctNames(recipes: seq<PotionRecipe>)
  {
    forall i, j :: 0 <= i < j < |recipes| ==> recipes[i].potionName != recipes[j].potionName
  }

  /** The first recipe named `name`, scanning from the front; None when there is none. */
  function FirstNamed(recipes: seq<PotionRecipe>, name: string): (found: Option<PotionRecipe>)
    ensures found.Some? <==> name in Names(recipes)
    ensures found.Some? ==> found.value in recipes && found.value.potionName == name
  {
    if recipes == [] then None
    else if recipes[0].potionName == name then Some(recipes[0])
    else
      assert Names(recipes) == {recipes[0].potionName} + Names(recipes[1..]) by {
        assert recipes == [recipes[0]] + recipes[1..];
      }
      FirstNamed(recipes[1..], name)
  }

  /** The recipes whose ingredient list mentions `ingredient`, in catalog order. */
  function WithIngredient(recipes: seq<PotionRecipe>, ingredient: string): (found: seq<PotionRecipe>)
    ensures |found| <= |recipes|
    ensures forall r :: r in found ==> r in recipes && ingredient in r.ingredients
  {
    if recipes == [] then []
    else
      var last := recipes[|recipes| - 1];
      WithIngredient(recipes[..|recipes| - 1], ingredient) + (if ingredient in last.ingredients then [last] else [])
  }

  /** Appending a recipe adds exactly its name to the name set. */
  lemma NamesAppend(recipes: seq<PotionRecipe>, r: PotionRecipe)
    ensures Names(recipes + [r]) == Names(recipes) + {r.potionName}
  {
    var both := recipes + [r];
    assert forall x :: x in both <==> x in recipes || x == r;
  }

  /** Appending a recipe with a fresh name keeps the names pairwise distinct. */
  lemma AppendKeepsNamesDistinct(recipes: seq<PotionRecipe>, r: PotionRecipe)
    requires DistinctNames(recipes) && r.potionName !in Names(recipes)
    ensures DistinctNames(recipes + [r])
  {
    var both := recipes + [r];
    forall i, j | 0 <= i < j < |both|
      ensures both[i].potionName != both[j].potionName
    {
      if j == |recipes| {
        assert both[i] in recipes;
      }
    }
  }

  /** In a catalog with distinct names, a lookup by name finds exactly the entry with that name. */
  lemma FirstNamedUnique(recipes: seq<PotionRecipe>, r: PotionRecipe)
    requires DistinctNames(recipes) && r in recipes
    ensures FirstNamed(recipes, r.potionName) == Some(r)
  {
  }

  /** Entries behind the first match do not change what a lookup by name finds. */
  lemma {:induction false} FirstNamedPrefix(recipes: seq<PotionRecipe>, more: seq<PotionRecipe>, name: string)
    requires name in Names(recipes)
    ensures FirstNamed(recipes + more, name) == FirstNamed(recipes, name)
  {
    if recipes[0].potionName != name {
      assert (recipes + more)[1..] == recipes[1..] + more;
      assert Names(recipes) == {recipes[0].potionName} + Names(recipes[1..]) by {
        assert recipes == [recipes[0]] + recipes[1..];
      }
      FirstNamedPrefix(recipes[1..], more, name);
    }
  }

  /** A lookup by name returns the first entry carrying that name. */
  lemma FirstNamedIsFirst(recipes: seq<PotionRecipe>, name: string, i: nat)
    requires i < |recipes| && recipes[i].potionName == name
    requires forall k :: 0 <= k < i ==> recipes[k].potionName != name
    ensures FirstNamed(recipes, name) == Some(recipes[i])
  {
    var front := recipes[..i + 1];
    assert recipes == front + recipes[i + 1..];
    assert front[i] in front;
    FirstNamedPrefix(front, recipes[i + 1..], name);
  }

  /** A recipe added under a fresh name is what a lookup by that name then finds. */
  lemma FirstNamedAfterAppend(recipes: seq<PotionRecipe>, r: PotionRecipe)
    requires r.potionName !in Names(recipes)
    ensures FirstNamed(recipes + [r], r.potionName) == Some(r)
  {
  }

  /** The ingredient search distributes over concatenation: catalog order is kept. */
  lemma {:induction false} WithIngredientAppend(front: seq<PotionRecipe>, back: seq<PotionRecipe>, ingredient: string)
    ensures WithIngredient(front + back, ingredient) == WithIngredient(front, ingredient) + WithIngredient(back, ingredient)
  {
    if back == [] {
      assert front + back == front;
    } else {
      var all := front + back;
      var init, last := back[..|back| - 1], back[|back| - 1];
      var tail := if ingredient in last.ingredients then [last] else [];
      assert all[..|all| - 1] == front + init;
      assert all[|all| - 1] == last;
      assert WithIngredient(back, ingredient) == WithIngredient(init, ingredient) + tail;
      assert WithIngredient(all, ingredient) == WithIngredient(front + init, ingredient) + tail;
      WithIngredientAppend(front, init, ingredient);
    }
  }

  /**
   * Each catalog entry that mentions the ingredient appears in the result as
   * often as in the catalog (once, however often the ingredient is repeated
   * inside it), and no other recipe appears at all.
   */
  lemma {:induction false} WithIngredientCount(recipes: seq<PotionRecipe>, ingredient: string, r: PotionRecipe)
    ensures multiset(WithIngredient(recipes, ingredient))[r] == if ingredient in r.ingredients then multiset(recipes)[r] else 0
  {
    if recipes != [] {
      var init := recipes[..|recipes| - 1];
      var last := recipes[|recipes| - 1];
      assert recipes == init + [last];
      WithIngredientCount(init, ingredient, r);
    }
  }

  /** Membership in the search result: exactly the catalog entries mentioning the ingredient. */
  lemma WithIngredientExactly(recipes: seq<PotionRecipe>, ingredient: string, r: PotionRecipe)
    ensures r in WithIngredient(recipes, ingredient) <==> r in recipes && ingredient in r.ingredients
  {
    WithIngredientCount(recipes, ingredient, r);
  }

  /** The search result is empty exactly when no entry mentions the ingredient. */
  lemma WithIngredientEmpty(recipes: seq<PotionRecipe>, ingredient: string)
    ensures WithIngredient(recipes, ingredient) == [] <==> forall r :: r in recipes ==> ingredient !in r.ingredients
  {
    if WithIngredient(recipes, ingredient) != [] {
      var r := WithIngredient(recipes, ingredient)[0];
      assert r in WithIngredient(recipes, ingredient);
    } else {
      forall r | r in recipes
        ensures ingredient !in r.ingredients
      {
        WithIngredientExactly(recipes, ingredient, r);
      }
    }
  }

  /** The search result of a catalog with distinct names has distinct names too. */
  lemma {:induction false} WithIngredientDistinct(recipes: seq<PotionRecipe>, ingredient: string)
    requires DistinctNames(recipes)
    ensures DistinctNames(WithIngredient(recipes, ingredient))
  {
    if recipes != [] {
      var init := recipes[..|recipes| - 1];
      var last := recipes[|recipes| - 1];
      assert DistinctNames(init) by {
        forall i, j | 0 <= i < j < |init|
          ensures init[i].potionName != init[j].potionName
        {
          assert init[i] == recipes[i] && init[j] == recipes[j];
        }
      }
      WithIngredientDistinct(init, ingredient);
      if ingredient in last.ingredients {
        AppendKeepsNamesDistinct(WithIngredient(init, ingredient), last);
      }
    }
  }

  /** The catalog: owns the recipes and appends to them in place. */
  class RecipeManager {
    var recipes: seq<PotionRecipe>

    /** The class invariant: names in the catalog are pairwise distinct. */
    ghost predicate Valid()
      reads this
    {
      DistinctNames(recipes)
    }

    constructor ()
      ensures Valid() && recipes == []
    {
      recipes := [];
    }

    /**
     * Registers a recipe: rejected, with nothing changed, when the name is
     * already in the catalog; otherwise appended, unchanged, at the end.
     */
    method AddRecipe(name: string, ingredients: seq<string>) returns (added: bool)
      requires Valid()
      modifies this
      ensures Valid()
      ensures added <==> name !in Names(old(recipes))
      ensures recipes == if added then old(recipes) + [PotionRecipe(name, ingredients)] else old(recipes)
    {
      var i := 0;
      while i < |recipes|
        invariant 0 <= i <= |recipes|
        invariant forall j :: 0 <= j < i ==> recipes[j].potionName != name
      {
        if recipes[i].potionName == name {
          return false;
        }
        i := i + 1;
      }
      var r := PotionRecipe(name, ingredients);
      AppendKeepsNamesDistinct(recipes, r);
      recipes := recipes + [r];
      added := true;
    }

    /** Linear lookup by exact name: the first entry with that name, or None. */
    method FindRecipeByName(name: string) returns (found: Option<PotionRecipe>)
      ensures found == FirstNamed(recipes, name)
    {
      var i := 0;
      while i < |recipes|
        invariant 0 <= i <= |recipes|
        invariant FirstNamed(recipes[i..], name) == FirstNamed(recipes, name)
      {
        if recipes[i].potionName == name {
          return Some(recipes[i]);
        }
        assert recipes[i..][1..] == recipes[i + 1..];
        i := i + 1;
      }
      return None;
    }

    /**
     * The entries whose ingredient list contains `ingredient`, in catalog
     * order; the inner scan stops at the first hit, so an entry is taken once.
     */
    method FindRecipesByIngredient(ingredient: string) returns (found: seq<PotionRecipe>)
      ensures found == WithIngredient(recipes, ingredient)
    {
      found := [];
      var i := 0;
      while i < |recipes|
        invariant 0 <= i <= |recipes|
        invariant found == WithIngredient(recipes[..i], ingredient)
      {
        var r := recipes[i];
        var j := 0;
        while j < |r.ingredients|
          invariant 0 <= j <= |r.ingredients|
          invariant ingredient !in r.ingredients[..j]
          invariant found == WithIngredient(recipes[..i], ingredient)
        {
          if r.ingredients[j] == ingredient {
            found := found + [r];
            break;
          }
          j := j + 1;
        }
        assert recipes[..i + 1][..i] == recipes[..i];
        i := i + 1;
      }
      assert recipes[..i] == recipes;
    }

    /** The whole catalog in registration order; its names are distinct. */
    method GetAllRecipes() returns (all: seq<PotionRecipe>)
      requires Valid()
      ensures all == recipes
      ensures DistinctNames(all)
    {
      all := recipes;
    }
  }
}
