/** The point-of-sale records of `src/types/pos.ts` that the dish-creation screen handles. */
module Pos {
  import opened JsValues

  /** A raw ingredient; `cost` is per `unit`, `quantity` is only set once it is selected. */
  datatype Ingredient = Ingredient(
    id: string,
    name: string,
    cost: real,
    unit: string,
    quantity: Option<real>,
    image: Option<string>)

  /** A prepared recipe; its `totalRecipeCost` is taken as given, its ingredients are never re-summed. */
  datatype Recipe = Recipe(
    id: string,
    name: string,
    totalRecipeCost: real,
    ingredients: seq<Ingredient>,
    image: string,
    description: Option<string>,
    servings: Option<real>)

  /**
   * The dish being composed: the fields of a `Partial<Dish>` that the screen reads and
   * writes. `None` is an absent field; for `image` it also stands for `null`.
   */
  datatype Draft = Draft(
    name: Option<string>,
    price: Option<real>,
    cost: Option<real>,
    margin: Option<real>,
    image: Option<string>,
    description: Option<string>)

  function IngredientId(i: Ingredient): string { i.id }

  function RecipeId(r: Recipe): string { r.id }

  /**
   * The quantity an ingredient counts with, `quantity || 1`: an unset or zero quantity
   * counts as one, any other quantity (a negative one too) as it is.
   */
  function EffectiveQuantity(i: Ingredient): (q: real)
    ensures q != 0.0
    ensures IsTruthy(i.quantity) ==> q == i.quantity.value
    ensures !IsTruthy(i.quantity) ==> q == 1.0
  {
    OrElse(i.quantity, 1.0)
  }
}
