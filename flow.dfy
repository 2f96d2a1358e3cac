/**
 * One user event on the page and what follows it: a selection handler, then the cost
 * effect of the preview, which runs only when one of the two selection lists changed.
 */
module Flow {
  import opened JsValues
  import opened Pos
  import opened DishCreation
  import opened DishPreview
  import IngredientSelector
  import RecipeSelector
  import PricingCalculator

  /** Picking a recipe, then the cost effect. */
  method SelectRecipe(page: DishCreationState, recipe: Recipe)
    modifies page`selectedRecipes, page`dish
    ensures page.selectedRecipes == old(page.selectedRecipes) + [recipe]
    ensures page.selectedIngredients == old(page.selectedIngredients)
    ensures page.dish == WithRecomputedCost(RecipeSelector.DraftAfterAdd(old(page.dish), old(page.selectedRecipes), recipe),
                                            page.selectedRecipes, page.selectedIngredients)
    ensures PricingCalculator.Cost(page.dish)
         == TotalCost(old(page.selectedRecipes), old(page.selectedIngredients)) + recipe.totalRecipeCost
  {
    RecipeSelector.AddRecipe(page, recipe);
    RecomputeCost(page);
    AppendRecipeCost(old(page.selectedRecipes), page.selectedIngredients, recipe);
  }

  /** Removing a recipe, then the cost effect. */
  method DeselectRecipe(page: DishCreationState, id: string)
    modifies page`selectedRecipes, page`dish
    ensures page.selectedRecipes == RecipeSelector.RemoveById(old(page.selectedRecipes), id)
    ensures page.selectedIngredients == old(page.selectedIngredients)
    ensures page.dish == WithRecomputedCost(old(page.dish), page.selectedRecipes, page.selectedIngredients)
  {
    RecipeSelector.RemoveRecipe(page, id);
    RecomputeCost(page);
  }

  /** Picking an ingredient, then the cost effect: the cost rises by its unit cost. */
  method SelectIngredient(page: DishCreationState, ingredient: Ingredient)
    modifies page`selectedIngredients, page`dish
    ensures page.selectedIngredients == old(page.selectedIngredients) + [IngredientSelector.Picked(ingredient)]
    ensures page.selectedRecipes == old(page.selectedRecipes)
    ensures IngredientSelector.QuantitiesPositive(old(page.selectedIngredients))
         ==> IngredientSelector.QuantitiesPositive(page.selectedIngredients)
    ensures page.dish == WithRecomputedCost(IngredientSelector.DraftAfterAdd(old(page.dish), old(page.selectedIngredients), ingredient),
                                            page.selectedRecipes, page.selectedIngredients)
    ensures PricingCalculator.Cost(page.dish)
         == TotalCost(old(page.selectedRecipes), old(page.selectedIngredients)) + ingredient.cost
  {
    IngredientSelector.AddIngredient(page, ingredient);
    RecomputeCost(page);
    if IngredientSelector.QuantitiesPositive(old(page.selectedIngredients)) {
      IngredientSelector.AddKeepsQuantitiesPositive(old(page.selectedIngredients), ingredient);
    }
    AppendIngredientCost(page.selectedRecipes, old(page.selectedIngredients), IngredientSelector.Picked(ingredient));
  }

  /** Removing an ingredient, then the cost effect. */
  method DeselectIngredient(page: DishCreationState, id: string)
    modifies page`selectedIngredients, page`dish
    ensures page.selectedIngredients == IngredientSelector.RemoveById(old(page.selectedIngredients), id)
    ensures page.selectedRecipes == old(page.selectedRecipes)
    ensures page.dish == WithRecomputedCost(old(page.dish), page.selectedRecipes, page.selectedIngredients)
    ensures IngredientSelector.QuantitiesPositive(old(page.selectedIngredients))
         ==> IngredientSelector.QuantitiesPositive(page.selectedIngredients)
  {
    IngredientSelector.RemoveIngredient(page, id);
    RecomputeCost(page);
    if IngredientSelector.QuantitiesPositive(old(page.selectedIngredients)) {
      IngredientSelector.RemoveKeepsQuantitiesPositive(old(page.selectedIngredients), id);
    }
  }

  /** Changing a quantity, then the cost effect. */
  method ChangeQuantity(page: DishCreationState, id: string, quantity: real)
    modifies page`selectedIngredients, page`dish
    ensures page.selectedIngredients == IngredientSelector.UpdateQuantity(old(page.selectedIngredients), id, quantity)
    ensures page.selectedRecipes == old(page.selectedRecipes)
    ensures page.dish == WithRecomputedCost(old(page.dish), page.selectedRecipes, page.selectedIngredients)
    ensures IngredientSelector.QuantitiesPositive(old(page.selectedIngredients))
         ==> IngredientSelector.QuantitiesPositive(page.selectedIngredients)
  {
    IngredientSelector.UpdateIngredientQuantity(page, id, quantity);
    RecomputeCost(page);
    if IngredientSelector.QuantitiesPositive(old(page.selectedIngredients)) {
      IngredientSelector.UpdateKeepsQuantitiesPositive(old(page.selectedIngredients), id, quantity);
    }
  }

  /**
   * Opening the page: the initial state, then the cost effect's first run, which finds both
   * lists empty and stores a cost of 0 where the initial draft has none.
   */
  method OpenPage() returns (page: DishCreationState)
    ensures fresh(page)
    ensures page.selectedRecipes == [] && page.selectedIngredients == []
    ensures page.dish == InitialDraft().(cost := Some(0.0))
    ensures IngredientSelector.QuantitiesPositive(page.selectedIngredients)
  {
    page := new DishCreationState();
    RecomputeCost(page);
  }

  /**
   * On the lists the screen builds, with no negative catalog cost, the dish cost is never
   * negative: every stored quantity is positive.
   */
  lemma SelectedCostNonNegative(recipes: seq<Recipe>, ingredients: seq<Ingredient>)
    requires forall r :: r in recipes ==> r.totalRecipeCost >= 0.0
    requires forall i :: i in ingredients ==> i.cost >= 0.0
    requires IngredientSelector.QuantitiesPositive(ingredients)
    ensures TotalCost(recipes, ingredients) >= 0.0
  {
    TotalCostNonNegative(recipes, ingredients);
  }

  /**
   * With distinct ids, changing the quantity of the entry at `k` to a positive value
   * moves the cost by its unit cost times the change in effective quantity.
   */
  lemma QuantityChangeCost(recipes: seq<Recipe>, ingredients: seq<Ingredient>, k: nat, quantity: real)
    requires Seqs.KeysDistinct(ingredients, IngredientId)
    requires k < |ingredients| && quantity > 0.0
    ensures TotalCost(recipes, IngredientSelector.UpdateQuantity(ingredients, ingredients[k].id, quantity))
         == TotalCost(recipes, ingredients) + ingredients[k].cost * (quantity - EffectiveQuantity(ingredients[k]))
  {
    IngredientSelector.UpdateQuantityAt(ingredients, k, quantity);
    ReplaceIngredientCost(recipes, ingredients, k, ingredients[k].(quantity := Some(quantity)));
  }

  /** With distinct ids, removing the ingredient at `k` lowers the cost by its contribution. */
  lemma RemoveIngredientCost(recipes: seq<Recipe>, ingredients: seq<Ingredient>, k: nat)
    requires Seqs.KeysDistinct(ingredients, IngredientId)
    requires k < |ingredients|
    ensures TotalCost(recipes, IngredientSelector.RemoveById(ingredients, ingredients[k].id))
         == TotalCost(recipes, ingredients) - ingredients[k].cost * EffectiveQuantity(ingredients[k])
  {
    IngredientSelector.RemoveByIdAt(ingredients, k);
    DropIngredientCost(recipes, ingredients, k);
  }

  /** With distinct ids, removing the recipe at `k` lowers the cost by its total recipe cost. */
  lemma RemoveRecipeCost(recipes: seq<Recipe>, ingredients: seq<Ingredient>, k: nat)
    requires Seqs.KeysDistinct(recipes, RecipeId)
    requires k < |recipes|
    ensures TotalCost(RecipeSelector.RemoveById(recipes, recipes[k].id), ingredients)
         == TotalCost(recipes, ingredients) - recipes[k].totalRecipeCost
  {
    RecipeSelector.RemoveByIdAt(recipes, k);
    DropRecipeCost(recipes, ingredients, k);
  }

  /**
   * One recipe at 3.50 and one ingredient at 2.50 taken twice cost 8.50; a 30% target
   * then sets the price to 12.14, whose actual margin (about 29.98%) is just below the
   * target, so the badge reads "below target" rather than "achieved".
   */
  lemma RoundedPriceFallsShortOfTarget(d: Draft, recipe: Recipe, ingredient: Ingredient)
    requires recipe.totalRecipeCost == 3.5
    requires ingredient.cost == 2.5 && ingredient.quantity == Some(2.0)
    requires d.cost == Some(TotalCost([recipe], [ingredient]))
    ensures TotalCost([recipe], [ingredient]) == 8.5
    ensures PricingCalculator.MarginChanged(d, 30.0).price == Some(12.14)
    ensures PricingCalculator.StatusOf(PricingCalculator.MarginChanged(d, 30.0)) == PricingCalculator.BelowTarget
  {
    assert [recipe][..0] == [] && [ingredient][..0] == [];
    assert Seqs.Sum([recipe], RecipeContribution) == 3.5;
    assert EffectiveQuantity(ingredient) == 2.0;
    assert Seqs.Sum([ingredient], IngredientContribution) == 5.0;
    assert PricingCalculator.Cost(d) == 8.5;
    var exact := 8.5 / (1.0 - 30.0 / 100.0);
    assert exact * 0.7 == 8.5;
    assert 1214.0 <= exact * 100.0 + 0.5 < 1215.0;
    assert (exact * 100.0 + 0.5).Floor == 1214;
    assert Round2(exact) == 12.14;
    var r := PricingCalculator.MarginChanged(d, 30.0);
    assert PricingCalculator.Price(r) == 12.14;
    var m := PricingCalculator.ActualMargin(8.5, 12.14);
    assert m * 12.14 == (12.14 - 8.5) * 100.0;
    assert 0.0 < m < 30.0;
  }
}
