# Alchemy workshop catalog and stock ledger, in Dafny

This project models the core of a small alchemy-workshop manager
(`four/four/Project.cpp`). It has three stateful classes.

- `StockManager` keeps a map from potion name to a stock count. The count is
  bounded by `MAX_STOCK = 3`. It supports initialise, dispense, return and read.
  - Dispense is blocked at 0 and on unknown names.
  - Return is blocked at `MAX_STOCK` and on unknown names.
  - Read gives 0 for an unknown name.
- `RecipeManager` keeps an ordered list of recipes, each a name and an ingredient list.
  - Registration rejects a name already in the catalog.
  - Lookup by exact name returns the first match.
  - Search by ingredient returns, in catalog order, every recipe that lists that
    ingredient. Each recipe appears once, however often the ingredient repeats
    inside it.
- `AlchemyWorkshop` composes the two. Stock is initialised only when the catalog
  accepts a recipe. Dispense and return go straight to the ledger with no catalog check.

Files:

- `wrappers.dfy` holds `Option`. The C++ lookup returns a nullable pointer into
  the catalog; the model returns an `Option<PotionRecipe>` instead.
- `stock.dfy` (module `Stock`) holds the ledger.
  - The pure specification is `AfterDispense` / `AfterReturn` on a `map<string, int>`,
    with lemmas: round trips, clamping under repetition, unknown names.
  - The class `StockManager` has a `potionStock` map field. Its methods are proved
    against those functions. Its invariant is that every count lies in [0, MAX_STOCK].
- `recipes.dfy` (module `Recipes`) holds the catalog.
  - The pure specification is `FirstNamed` (lookup by name) and `WithIngredient`
    (an order-preserving filter), with lemmas about them.
  - The class `RecipeManager` has a `recipes` sequence field. Its methods
    reproduce the C++ loops, including the early `return` and the inner `break`.
    Its invariant is that names are pairwise distinct.
- `workshop.dfy` (module `Alchemy`) holds `AlchemyWorkshop`.
  - Its invariant joins both managers' invariants.
  - It also requires the ledger's key set to equal the catalog's name set.
  - Four client methods use only the contracts. `RegisterHealAndFire` registers two
    recipes and then a duplicate. `SearchScenario` searches them by name and by
    ingredient. `RegisterHeal` registers one recipe, and `StockScenario` drains its
    stock entry and refills it.

`StockManager::returnPotion` (Project.cpp:42) and `AlchemyWorkshop::addRecipe`,
`dispensePotion` and `returnPotion` (Project.cpp:138, 183, 187) return `void`, so the
matching Dafny methods have no result.

## Model

| member | source | states |
|---|---|---|
| `Stock.AfterDispense` | four/four/Project.cpp:26-40 | a dispense keeps the key set and every other entry; on a known name it lowers a positive count by one and leaves 0 at 0; it keeps every count in [0, MAX_STOCK] |
| `Stock.AfterReturn` | four/four/Project.cpp:42-54 | a return keeps the key set and every other entry; on a known name it raises a count below MAX_STOCK by one and leaves MAX_STOCK alone; it keeps every count in [0, MAX_STOCK] |
| `Stock.UnknownNameUntouched` | four/four/Project.cpp:26-46 | on a name with no entry, dispense fails and return is ignored; both leave the map unchanged and create no entry |
| `Stock.DispenseThenReturn` | four/four/Project.cpp:26-54 | a successful dispense followed by a return restores the ledger exactly (count k >= 1 comes back to k) |
| `Stock.ReturnThenDispense` | four/four/Project.cpp:26-54 | a return that takes effect followed by a dispense restores the ledger exactly (count k < MAX_STOCK comes back to k) |
| `Stock.DispenseFloor` | four/four/Project.cpp:31-39 | n dispenses in a row take count k to max(k - n, 0) and change nothing else, so dispensing at 0 is blocked however often it is repeated |
| `Stock.ReturnCeiling` | four/four/Project.cpp:47-53 | n returns in a row take count k to min(k + n, MAX_STOCK) and change nothing else, so returning at MAX_STOCK is blocked however often it is repeated |
| `Stock.StockManager.constructor` | four/four/Project.cpp:16-19 | a new ledger is empty and satisfies the bounds invariant |
| `Stock.StockManager.InitializeStock` | four/four/Project.cpp:22-24 | the entry for the name becomes MAX_STOCK, overwriting any earlier value; nothing else changes; the bounds invariant is kept |
| `Stock.StockManager.DispensePotion` | four/four/Project.cpp:26-40 | returns true exactly when the name is known with a positive count; the new ledger is `AfterDispense` of the old; the bounds invariant is kept |
| `Stock.StockManager.ReturnPotion` | four/four/Project.cpp:42-54 | the new ledger is `AfterReturn` of the old; the bounds invariant is kept |
| `Stock.StockManager.GetStock` | four/four/Project.cpp:56-59 | 0 for a name with no entry, the stored count otherwise; always within [0, MAX_STOCK] under the invariant |
| `Recipes.FirstNamed` | four/four/Project.cpp:107-112 | a lookup finds a recipe exactly when some entry has that name; the recipe found is a catalog entry with that name |
| `Recipes.WithIngredient` | four/four/Project.cpp:114-125 | the search result is no longer than the catalog and holds only catalog entries that list the ingredient |
| `Recipes.NamesAppend` | four/four/Project.cpp:83 | appending a recipe adds exactly its name to the catalog's name set |
| `Recipes.AppendKeepsNamesDistinct` | four/four/Project.cpp:76-85 | appending under a fresh name keeps catalog names pairwise distinct |
| `Recipes.FirstNamedUnique` | four/four/Project.cpp:107-112 | with distinct names, a lookup by the name of any catalog entry returns that very entry |
| `Recipes.FirstNamedPrefix` | four/four/Project.cpp:107-112 | entries added after the first match do not change the lookup result |
| `Recipes.FirstNamedIsFirst` | four/four/Project.cpp:107-112 | when entry i has the name and no earlier entry does, the lookup returns entry i: the scan stops at the first match |
| `Recipes.FirstNamedAfterAppend` | four/four/Project.cpp:76-112 | after appending under a fresh name, lookup by that name returns the new recipe with its ingredient list unchanged |
| `Recipes.WithIngredientAppend` | four/four/Project.cpp:116-123 | searching a concatenation gives the front's result followed by the back's, so catalog order is kept |
| `Recipes.WithIngredientCount` | four/four/Project.cpp:116-122 | each recipe occurs in the result as often as in the catalog if it lists the ingredient (repeats inside it do not matter), and not at all otherwise |
| `Recipes.WithIngredientExactly` | four/four/Project.cpp:114-125 | a recipe is in the result if and only if it is a catalog entry that lists the ingredient |
| `Recipes.WithIngredientEmpty` | four/four/Project.cpp:114-125 | the result is empty if and only if no catalog entry lists the ingredient |
| `Recipes.WithIngredientDistinct` | four/four/Project.cpp:114-125 | over a catalog with distinct names, the result has distinct names, so no recipe is listed twice |
| `Recipes.RecipeManager.constructor` | four/four/Project.cpp:70-72 | a new catalog is empty and satisfies the distinct-names invariant |
| `Recipes.RecipeManager.AddRecipe` | four/four/Project.cpp:76-86 | returns true if and only if the name is not yet in the catalog; on true exactly one recipe with that name and ingredient list is appended at the end; on false the catalog is unchanged; names stay distinct |
| `Recipes.RecipeManager.FindRecipeByName` | four/four/Project.cpp:107-112 | the linear scan with early return yields `FirstNamed` of the catalog, and changes nothing |
| `Recipes.RecipeManager.FindRecipesByIngredient` | four/four/Project.cpp:114-125 | the nested scan with `break` yields `WithIngredient` of the catalog, and changes nothing |
| `Recipes.RecipeManager.GetAllRecipes` | four/four/Project.cpp:127-129 | returns the whole catalog in registration order, whose names are distinct |
| `Alchemy.AlchemyWorkshop.constructor` | four/four/Project.cpp:132-135 | a new workshop has an empty catalog and an empty ledger, and satisfies the joint invariant |
| `Alchemy.AlchemyWorkshop.AddRecipe` | four/four/Project.cpp:138-142 | a duplicate name leaves catalog and ledger unchanged; a fresh name appends the recipe and sets its stock to MAX_STOCK; the ledger keys stay equal to the catalog names |
| `Alchemy.AlchemyWorkshop.SearchByName` | four/four/Project.cpp:148-162 | the lookup delegated to the catalog; it finds a recipe exactly when the ledger has an entry for that name |
| `Alchemy.AlchemyWorkshop.SearchByIngredient` | four/four/Project.cpp:164-181 | the search delegated to the catalog, returned as `WithIngredient` of it |
| `Alchemy.AlchemyWorkshop.DispensePotion` | four/four/Project.cpp:183-185 | delegated to the ledger with no catalog check; the catalog is untouched and the joint invariant is kept |
| `Alchemy.AlchemyWorkshop.ReturnPotion` | four/four/Project.cpp:187-189 | delegated to the ledger with no catalog check; the catalog is untouched and the joint invariant is kept |
| `Alchemy.RegisterHealAndFire` | four/four/Project.cpp:138-142 | registering "Heal" and "Fire" and then "Heal" again leaves exactly the first two recipes, in registration order, with the workshop invariant intact |
| `Alchemy.SearchScenario` | four/four/Project.cpp:107-125 | with "Heal" (herb, water) and "Fire" (sulfur, herb) registered, lookup of "Heal" finds it; "herb" finds both in registration order, "water" only "Heal", "gold" nothing |
| `Alchemy.RegisterHeal` | four/four/Project.cpp:138-142 | registering "Heal" in a new workshop leaves a ledger with exactly one entry, "Heal" at MAX_STOCK |
| `Alchemy.StockScenario` | four/four/Project.cpp:26-59 | from MAX_STOCK, three dispenses read 2, 1 and 0; a fourth is refused and leaves 0; one return gives 1; a dispense of an unknown name creates no entry and it reads 0 |
| `Alchemy.SplitSearch` | four/four/Project.cpp:114-125 | searching a two-recipe catalog gives the first recipe (if it lists the ingredient) followed by the second (if it does) |

## Left out

- `main` (four/four/Project.cpp:196-297) is not modelled. That covers the menu loop,
  the parsing of the menu choice and its error recovery, and the ingredient-entry loop.
  The empty-ingredient guard at line 238 also lives there, so `AddRecipe` accepts an
  empty ingredient list.
- All console output is left out. That includes the messages inside the modelled
  methods and the display-only methods `displayAllStocks`, `displayAllRecipes` and
  `AlchemyWorkshop::displayAllRecipes` / `displayStock`.
- Alchemy.AlchemyWorkshop.SearchByName and Alchemy.AlchemyWorkshop.SearchByIngredient:
  the C++ methods print their result and return nothing. The model returns the value
  they would print.
- Recipes.RecipeManager.FindRecipeByName: the C++ method returns a pointer into the
  catalog's vector. The model returns a copy in an `Option`, so it does not capture
  aliasing (writes through that pointer).
- The stock map's ordering by name only affects display. The ledger is an unordered Dafny `map`.
- `MAX_STOCK` is a per-object constant in the C++ class. Every object has the same
  value, so the model uses one module constant.
- Counts are C++ `int`. The invariant keeps them in [0, 3], so overflow cannot
  happen and unbounded integers model them exactly.
