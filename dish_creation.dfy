/** The state the dish-creation page owns and hands to its components. */
module DishCreation {
  import opened JsValues
  import opened Pos

  /**
   * The draft a new creation flow starts from: an empty name and description, price 0,
   * target margin 30, no image and no cost yet; name and price are both falsy.
   */
  function InitialDraft(): (d: Draft)
    ensures d.name == Some("") && d.description == Some("")
    ensures d.price == Some(0.0) && d.margin == Some(30.0)
    ensures d.cost.None? && d.image.None?
    ensures !IsTruthyString(d.name) && !IsTruthy(d.price)
  {
    Draft(Some(""), Some(0.0), None, Some(30.0), None, Some(""))
  }

  /** The page's three pieces of state: the draft and the two selection lists. */
  class DishCreationState {
    var dish: Draft
    var selectedRecipes: seq<Recipe>
    var selectedIngredients: seq<Ingredient>

    constructor ()
      ensures dish == InitialDraft()
      ensures selectedRecipes == [] && selectedIngredients == []
    {
      dish := InitialDraft();
      selectedRecipes := [];
      selectedIngredients := [];
    }
  }
}
