/** The cost aggregator of the dish preview: the dish's cost from its selected components. */
module DishPreview {
  import opened JsValues
  import opened Seqs
  import opened Pos
  import opened DishCreation

  /** A recipe adds its stored total cost, as it is; its own ingredient list plays no part. */
  function RecipeContribution(r: Recipe): (c: real)
    ensures c == r.totalRecipeCost
  {
    r.totalRecipeCost
  }

  /** The recipe's ingredient list, description and servings play no part in what it adds. */
  lemma RecipeContributionIgnoresContents(r: Recipe, ingredients: seq<Ingredient>,
                                          description: Option<string>, servings: Option<real>)
    ensures RecipeContribution(r.(ingredients := ingredients, description := description, servings := servings))
         == RecipeContribution(r)
  {
  }

  /** An ingredient adds its unit cost times its quantity; an unset or zero quantity counts once. */
  function IngredientContribution(i: Ingredient): (c: real)
    ensures IsTruthy(i.quantity) ==> c == i.cost * i.quantity.value
    ensures !IsTruthy(i.quantity) ==> c == i.cost
  {
    i.cost * EffectiveQuantity(i)
  }

  /** The dish cost the selections call for: every recipe's total plus every ingredient's share. */
  function TotalCost(recipes: seq<Recipe>, ingredients: seq<Ingredient>): (c: real)
    ensures recipes == [] && ingredients == [] ==> c == 0.0
    ensures |recipes| == 1 && ingredients == [] ==> c == recipes[0].totalRecipeCost
    ensures recipes == [] && |ingredients| == 1 ==> c == IngredientContribution(ingredients[0])
  {
    assert |recipes| == 1 ==> Sum(recipes, RecipeContribution) == recipes[0].totalRecipeCost by {
      if |recipes| == 1 {
        assert recipes == [recipes[0]];
        SumSingleton(recipes[0], RecipeContribution);
      }
    }
    assert |ingredients| == 1 ==> Sum(ingredients, IngredientContribution) == IngredientContribution(ingredients[0]) by {
      if |ingredients| == 1 {
        assert ingredients == [ingredients[0]];
        SumSingleton(ingredients[0], IngredientContribution);
      }
    }
    Sum(recipes, RecipeContribution) + Sum(ingredients, IngredientContribution)
  }

  /**
   * The effect body: a running total that starts from 0 on every run, then adds
   * every recipe and every ingredient in turn. It only reads the two lists.
   */
  method ComputeTotalCost(recipes: seq<Recipe>, ingredients: seq<Ingredient>) returns (totalCost: real)
    ensures totalCost == Sum(recipes, RecipeContribution) + Sum(ingredients, IngredientContribution)
    ensures recipes == [] && ingredients == [] ==> totalCost == 0.0
  {
    totalCost := 0.0;
    var i := 0;
    while i < |recipes|
      invariant 0 <= i <= |recipes|
      invariant totalCost == Sum(recipes[..i], RecipeContribution)
    {
      SumStep(recipes, i, RecipeContribution);
      totalCost := totalCost + recipes[i].totalRecipeCost;
      i := i + 1;
    }
    assert recipes[..i] == recipes;
    var fromRecipes := totalCost;
    var j := 0;
    while j < |ingredients|
      invariant 0 <= j <= |ingredients|
      invariant totalCost == fromRecipes + Sum(ingredients[..j], IngredientContribution)
    {
      SumStep(ingredients, j, IngredientContribution);
      totalCost := totalCost + ingredients[j].cost * EffectiveQuantity(ingredients[j]);
      j := j + 1;
    }
    assert ingredients[..j] == ingredients;
  }

  /** The cost effect: writes the recomputed total into `cost` and nothing else. */
  method RecomputeCost(page: DishCreationState)
    modifies page`dish
    ensures page.dish == old(page.dish).(cost := Some(TotalCost(page.selectedRecipes, page.selectedIngredients)))
  {
    var totalCost := ComputeTotalCost(page.selectedRecipes, page.selectedIngredients);
    page.dish := page.dish.(cost := Some(totalCost));
  }

  /** The draft after the cost effect has run on the given selections. */
  function WithRecomputedCost(d: Draft, recipes: seq<Recipe>, ingredients: seq<Ingredient>): (r: Draft)
    ensures r.(cost := d.cost) == d
    ensures r.cost == Some(TotalCost(recipes, ingredients))
  {
    d.(cost := Some(TotalCost(recipes, ingredients)))
  }

  /** The effect does not accumulate: the cost it leaves does not depend on the cost before. */
  lemma RecomputeIgnoresPreviousCost(d: Draft, d': Draft, recipes: seq<Recipe>, ingredients: seq<Ingredient>)
    requires d'.(cost := d.cost) == d
    ensures WithRecomputedCost(d, recipes, ingredients) == WithRecomputedCost(d', recipes, ingredients)
    ensures WithRecomputedCost(WithRecomputedCost(d, recipes, ingredients), recipes, ingredients)
         == WithRecomputedCost(d, recipes, ingredients)
  {
  }

  /** Reordering either selection list leaves the cost unchanged. */
  lemma TotalCostOrderIndependent(recipes: seq<Recipe>, recipes': seq<Recipe>,
                                  ingredients: seq<Ingredient>, ingredients': seq<Ingredient>)
    requires multiset(recipes) == multiset(recipes')
    requires multiset(ingredients) == multiset(ingredients')
    ensures TotalCost(recipes, ingredients) == TotalCost(recipes', ingredients')
  {
    SumPermutation(recipes, recipes', RecipeContribution);
    SumPermutation(ingredients, ingredients', IngredientContribution);
  }

  /** No selections, no cost. */
  lemma EmptySelectionCostsNothing()
    ensures TotalCost([], []) == 0.0
  {
  }

  /** Appending a recipe raises the cost by exactly its total recipe cost. */
  lemma AppendRecipeCost(recipes: seq<Recipe>, ingredients: seq<Ingredient>, r: Recipe)
    ensures TotalCost(recipes + [r], ingredients) == TotalCost(recipes, ingredients) + r.totalRecipeCost
  {
    assert (recipes + [r])[..|recipes|] == recipes;
  }

  /** Appending an ingredient raises the cost by its unit cost times its effective quantity. */
  lemma AppendIngredientCost(recipes: seq<Recipe>, ingredients: seq<Ingredient>, i: Ingredient)
    ensures TotalCost(recipes, ingredients + [i]) == TotalCost(recipes, ingredients) + i.cost * EffectiveQuantity(i)
  {
    assert (ingredients + [i])[..|ingredients|] == ingredients;
  }

  /** Changing the entry at `k` changes the cost by the difference of the two contributions. */
  lemma ReplaceIngredientCost(recipes: seq<Recipe>, ingredients: seq<Ingredient>, k: nat, i: Ingredient)
    requires k < |ingredients|
    ensures TotalCost(recipes, ingredients[k := i])
         == TotalCost(recipes, ingredients) - IngredientContribution(ingredients[k]) + IngredientContribution(i)
  {
    SumUpdate(ingredients, k, i, IngredientContribution);
  }

  /** Dropping the entry at `k` lowers the cost by its contribution. */
  lemma DropIngredientCost(recipes: seq<Recipe>, ingredients: seq<Ingredient>, k: nat)
    requires k < |ingredients|
    ensures TotalCost(recipes, ingredients[..k] + ingredients[k + 1..])
         == TotalCost(recipes, ingredients) - IngredientContribution(ingredients[k])
  {
    SumRemove(ingredients, k, IngredientContribution);
  }

  /** Dropping the recipe at `k` lowers the cost by its total recipe cost. */
  lemma DropRecipeCost(recipes: seq<Recipe>, ingredients: seq<Ingredient>, k: nat)
    requires k < |recipes|
    ensures TotalCost(recipes[..k] + recipes[k + 1..], ingredients)
         == TotalCost(recipes, ingredients) - recipes[k].totalRecipeCost
  {
    SumRemove(recipes, k, RecipeContribution);
  }

  /** With non-negative recipe and unit costs and no negative quantity, the cost is non-negative. */
  lemma TotalCostNonNegative(recipes: seq<Recipe>, ingredients: seq<Ingredient>)
    requires forall r :: r in recipes ==> r.totalRecipeCost >= 0.0
    requires forall i :: i in ingredients ==> i.cost >= 0.0 && (i.quantity.None? || i.quantity.value >= 0.0)
    ensures TotalCost(recipes, ingredients) >= 0.0
  {
    SumNonNegative(recipes, RecipeContribution);
    forall i | i in ingredients
      ensures IngredientContribution(i) >= 0.0
    {
      assert EffectiveQuantity(i) > 0.0;
    }
    SumNonNegative(ingredients, IngredientContribution);
  }
}
