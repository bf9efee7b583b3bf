/**
 * The workshop facade (class AlchemyWorkshop in Project.cpp): a recipe
 * catalog and a stock ledger kept in step, so that the ledger has an entry
 * for a name exactly when the catalog has a recipe of that name.
 */
module Alchemy {
  import opened Wrappers
  import opened Recipes
  import opened Stock

  class AlchemyWorkshop {
    const recipeManager: RecipeManager
    const stockManager: StockManager

    /**
     * The workshop invariant: both managers keep their own invariants
     * (distinct names, counts in [0, MAX_STOCK]) and the ledger's keys are
     * the catalog's names.
     */
    ghost predicate Valid()
      reads this, recipeManager, stockManager
    {
      && recipeManager.Valid()
      && stockManager.Valid()
      && stockManager.potionStock.Keys == Names(recipeManager.recipes)
    }

    constructor ()
      ensures Valid() && fresh(recipeManager) && fresh(stockManager)
      ensures recipeManager.recipes == [] && stockManager.potionStock == map[]
    {
      recipeManager := new RecipeManager();
      stockManager := new StockManager();
    }

    /**
     * Registers a recipe and, if and only if the catalog accepted it,
     * initialises its stock to MAX_STOCK; a duplicate name changes nothing.
     */
    method AddRecipe(name: string, ingredients: seq<string>)
      requires Valid()
      modifies recipeManager, stockManager
      ensures Valid()
      ensures name in Names(old(recipeManager.recipes)) ==>
        && recipeManager.recipes == old(recipeManager.recipes)
        && stockManager.potionStock == old(stockManager.potionStock)
      ensures name !in Names(old(recipeManager.recipes)) ==>
        && recipeManager.recipes == old(recipeManager.recipes) + [PotionRecipe(name, ingredients)]
        && stockManager.potionStock == old(stockManager.potionStock)[name := MAX_STOCK]
    {
      var added := recipeManager.AddRecipe(name, ingredients);
      if added {
        stockManager.InitializeStock(name);
        NamesAppend(old(recipeManager.recipes), PotionRecipe(name, ingredients));
      }
    }

    /** Looks a recipe up by exact name in the catalog. */
    method SearchByName(name: string) returns (found: Option<PotionRecipe>)
      requires Valid()
      ensures found == FirstNamed(recipeManager.recipes, name)
      ensures found.Some? <==> name in stockManager.potionStock
    {
      found := recipeManager.FindRecipeByName(name);
    }

    /** Lists, in catalog order, the recipes that use `ingredient`. */
    method SearchByIngredient(ingredient: string) returns (found: seq<PotionRecipe>)
      ensures found == WithIngredient(recipeManager.recipes, ingredient)
    {
      found := recipeManager.FindRecipesByIngredient(ingredient);
    }

    /** Delegates to the ledger with no catalog check; the catalog is untouched. */
    method DispensePotion(potionName: string)
      requires Valid()
      modifies stockManager
      ensures Valid()
      ensures stockManager.potionStock == AfterDispense(old(stockManager.potionStock), potionName)
    {
      var _ := stockManager.DispensePotion(potionName);
    }

    /** Delegates to the ledger with no catalog check; the catalog is untouched. */
    method ReturnPotion(potionName: string)
      requires Valid()
      modifies stockManager
      ensures Valid()
      ensures stockManager.potionStock == AfterReturn(old(stockManager.potionStock), potionName)
    {
      stockManager.ReturnPotion(potionName);
    }
  }

  /** A client of the catalog side: register two recipes, then a duplicate. */
  method RegisterHealAndFire() returns (w: AlchemyWorkshop)
    ensures fresh(w.recipeManager) && fresh(w.stockManager) && w.Valid()
    ensures w.recipeManager.recipes == [PotionRecipe("Heal", ["herb", "water"]), PotionRecipe("Fire", ["sulfur", "herb"])]
  {
    w := new AlchemyWorkshop();
    var heal := PotionRecipe("Heal", ["herb", "water"]);
    var fire := PotionRecipe("Fire", ["sulfur", "herb"]);
    w.AddRecipe("Heal", ["herb", "water"]);
    NamesAppend([], heal);
    w.AddRecipe("Fire", ["sulfur", "herb"]);
    assert w.recipeManager.recipes == [heal, fire];
    NamesAppend([heal], fire);

    // A second registration under an existing name is rejected.
    w.AddRecipe("Heal", ["gold"]);
  }

  /** A client of the catalog side: search the two registered recipes. */
  method SearchScenario() returns (byName: Option<PotionRecipe>, herb: seq<PotionRecipe>, water: seq<PotionRecipe>, gold: seq<PotionRecipe>)
    ensures byName == Some(PotionRecipe("Heal", ["herb", "water"]))
    ensures herb == [PotionRecipe("Heal", ["herb", "water"]), PotionRecipe("Fire", ["sulfur", "herb"])]
    ensures water == [PotionRecipe("Heal", ["herb", "water"])]
    ensures gold == []
  {
    var w := RegisterHealAndFire();
    var heal := PotionRecipe("Heal", ["herb", "water"]);
    var fire := PotionRecipe("Fire", ["sulfur", "herb"]);
    byName := w.SearchByName("Heal");
    assert byName == Some(heal);

    herb := w.SearchByIngredient("herb");
    assert herb == [heal, fire] by {
      SplitSearch(heal, fire, "herb");
      assert "herb" in heal.ingredients && "herb" in fire.ingredients;
    }
    water := w.SearchByIngredient("water");
    assert water == [heal] by {
      SplitSearch(heal, fire, "water");
      assert "water" in heal.ingredients && "water" !in fire.ingredients;
    }
    gold := w.SearchByIngredient("gold");
    assert gold == [] by {
      SplitSearch(heal, fire, "gold");
      assert "gold" !in heal.ingredients && "gold" !in fire.ingredients;
    }
  }

  /** Searching a two-recipe catalog is searching each recipe in turn. */
  lemma SplitSearch(first: PotionRecipe, second: PotionRecipe, ingredient: string)
    ensures WithIngredient([first, second], ingredient) ==
      (if ingredient in first.ingredients then [first] else []) + (if ingredient in second.ingredients then [second] else [])
  {
    assert [first, second] == [first] + [second];
    assert [first][..0] == [] && [second][..0] == [];
    WithIngredientAppend([first], [second], ingredient);
  }

  /** A client of the workshop: register a single recipe, "Heal", and hand out its ledger. */
  method RegisterHeal() returns (ledger: StockManager)
    ensures fresh(ledger) && ledger.Valid()
    ensures ledger.potionStock == map["Heal" := MAX_STOCK]
  {
    var w := new AlchemyWorkshop();
    w.AddRecipe("Heal", ["herb"]);
    ledger := w.stockManager;
  }

  /**
   * A client of the stock side: register one recipe, drain it with three
   * dispenses, try a fourth, return one, and dispense an unknown name. It
   * calls the ledger that the workshop's dispense and return delegate to.
   */
  method StockScenario() returns (initial: int, afterOne: int, afterTwo: int, afterThree: int,
                                  fourth: bool, drained: int, refilled: int, ghostKnown: bool, unknown: int)
    ensures initial == MAX_STOCK
    ensures afterOne == 2 && afterTwo == 1 && afterThree == 0
    ensures !fourth && drained == 0
    ensures refilled == 1
    ensures !ghostKnown && unknown == 0
  {
    var ledger := RegisterHeal();
    initial := ledger.GetStock("Heal");
    var dispensed := ledger.DispensePotion("Heal");
    afterOne := ledger.GetStock("Heal");
    dispensed := ledger.DispensePotion("Heal");
    afterTwo := ledger.GetStock("Heal");
    dispensed := ledger.DispensePotion("Heal");
    afterThree := ledger.GetStock("Heal");

    // The fourth dispense is refused and leaves the count at 0.
    fourth := ledger.DispensePotion("Heal");
    drained := ledger.GetStock("Heal");
    ledger.ReturnPotion("Heal");
    refilled := ledger.GetStock("Heal");

    // A dispense on an unknown name creates no entry.
    dispensed := ledger.DispensePotion("Ghost");
    ghostKnown := "Ghost" in ledger.potionStock;
    unknown := ledger.GetStock("Ghost");
  }
}
