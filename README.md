# Dish creation screen of a restaurant point-of-sale front end

This project models the logic behind the "Create New Dish" page of a point-of-sale web front end.
A restaurant manager builds a dish in one of two ways:

- by picking catalog recipes and raw ingredients, whose costs are added up into the dish's cost;
- by typing the cost and price directly.

The page then suggests a price for a target profit margin, shows the realised margin and profit,
and marks whether the target is met.

The model is split into modules that follow the source files:

| module | models |
|---|---|
| `JsValues` | the JavaScript idioms the screen relies on: `x \|\| default` on optional numbers, truthiness, `parseFloat(x.toFixed(2))` as rounding to cents, and division that can come out infinite |
| `Text` | case-insensitive `includes` used by the search boxes (ASCII lower-casing) |
| `Seqs` | generic filtering, removal by key and summation over sequences, with the lemmas the screen needs |
| `Pos` | the `Ingredient` and `Recipe` records and the partial `Dish` being edited (`Draft`) |
| `DishCreation` | the page's three pieces of state and their initial values, as a class |
| `DishPreview` | the cost effect: the sum of recipe costs plus ingredient cost times quantity, as a loop method proved against `TotalCost` |
| `PricingCalculator` | suggested price, actual margin, profit, the status badge and the price, margin and suggestion handlers |
| `IngredientSelector`, `RecipeSelector` | the search filters and the add, remove and quantity handlers on the selected lists |
| `ScratchCreator` | the manual field setters and the profit preview card |
| `Flow` | one user event followed by the cost effect, and an end-to-end pricing example |

Each handler that updates page state is a method that takes the page's `DishCreation.DishCreationState`.
It changes only the fields it names in `modifies`, and its `ensures` ties the new state to a pure
function of the old state. The properties the screen promises are proved about those functions. Money,
quantities and percentages are exact `real`s. An optional number or string of the source is an `Option`.

The records of `src/types/pos.ts` become datatypes in `Pos`:

- `Ingredient` (lines 2-9): an id, a name, a unit cost, a unit, an optional quantity and an optional image.
- `Recipe` (lines 11-19): an id, a name, a stored total recipe cost, its ingredient list, an image, and an
  optional description and servings count.
- `Draft` (lines 21-34): the partial `Dish` the page edits. Its name, price, cost, margin, image and
  description are each optional.

Some behaviours of the code are worth stating outright:

- `quantity || 1` replaces only an unset or zero quantity. A negative quantity would be used as it is.
  No entry on this screen ever holds one: a pick starts at 1, and an update to 0 or less removes the entry
  instead of storing it (`IngredientSelector.UpdateKeepsQuantitiesPositive`).
- With cost 8.50 and a 30% target, the price rounds to 12.14. Its margin is just under 30%, so the badge reads
  "below target" (`Flow.RoundedPriceFallsShortOfTarget`).
- A target above 100 gives a negative suggested price (`PricingCalculator.SuggestedPrice`).

## Model

| member | source | states |
|---|---|---|
| `JsValues.OrElse` | src/components/dish-creation/PricingCalculator.tsx:16-18 | `x \|\| d` on an optional number: a set non-zero value is kept, an unset or zero one becomes the default |
| `JsValues.Round2` | src/components/dish-creation/PricingCalculator.tsx:38 | `parseFloat(x.toFixed(2))` yields a whole number of cents within half a cent of `x`, with the sign of `x` |
| `JsValues.Round2OfCents` | src/components/dish-creation/PricingCalculator.tsx:43 | rounding an amount that is already in whole cents returns it unchanged |
| `JsValues.Round2Idempotent` | src/components/dish-creation/PricingCalculator.tsx:38 | rounding twice is rounding once |
| `JsValues.Divide` | src/components/dish-creation/PricingCalculator.tsx:21 | a quotient is infinite exactly when the divisor is 0; otherwise it times the divisor gives the dividend |
| `Text.Lower` | src/components/dish-creation/IngredientSelector.tsx:52 | lower-casing keeps the length, leaves no upper-case letter, turns each upper-case letter into its lower-case partner and keeps every other character |
| `Text.LowerIdempotent` | src/components/dish-creation/IngredientSelector.tsx:52 | lower-casing an already lower-cased name or term changes nothing |
| `Text.Includes` | src/components/dish-creation/IngredientSelector.tsx:52 | `includes` is true exactly when the needle occurs at some position of the haystack |
| `Text.IncludesEmpty` | src/components/dish-creation/RecipeSelector.tsx:53 | the empty search term occurs in every name |
| `Seqs.Filter` | src/components/dish-creation/IngredientSelector.tsx:51-54 | `filter` keeps exactly the elements that pass, each as often as it occurs, in their original order |
| `Seqs.FilterKeepsAll` | src/components/dish-creation/RecipeSelector.tsx:52-55 | a filter that every element passes returns the list unchanged |
| `Seqs.FilterAppend` | src/components/dish-creation/RecipeSelector.tsx:52-55 | filtering a concatenation filters each part |
| `Seqs.RemoveKey` | src/components/dish-creation/IngredientSelector.tsx:71 | `filter(x => x.id !== id)` drops exactly the entries with that id, keeps every other entry as often as it occurs and in order, and leaves a list without the id unchanged |
| `Seqs.RemoveKeyAt` | src/components/dish-creation/RecipeSelector.tsx:72 | with distinct ids, removing the id of the entry at `k` is slicing that one entry out |
| `Seqs.AppendFreshKey` | src/components/dish-creation/IngredientSelector.tsx:53 | appending an entry whose id is not yet used keeps the ids distinct |
| `Seqs.FilterKeepsKeysDistinct` | src/components/dish-creation/IngredientSelector.tsx:71 | filtering a list with distinct ids keeps them distinct |
| `Seqs.SumStep` | src/components/dish-creation/DishPreview.tsx:32-38 | extending a running total by one element adds that element's contribution |
| `Seqs.SumAppend` | src/components/dish-creation/DishPreview.tsx:32-38 | the total of a concatenation is the sum of the parts' totals |
| `Seqs.SumRemove` | src/components/dish-creation/DishPreview.tsx:32-38 | the total without the element at `k` is the total minus its contribution |
| `Seqs.SumPermutation` | src/components/dish-creation/DishPreview.tsx:32-38 | reordering the elements does not change the total |
| `Seqs.SumUpdate` | src/components/dish-creation/DishPreview.tsx:36-38 | replacing one element moves the total by the difference of the two contributions |
| `Seqs.SumNonNegative` | src/components/dish-creation/DishPreview.tsx:32-38 | non-negative contributions give a non-negative total |
| `Pos.EffectiveQuantity` | src/components/dish-creation/DishPreview.tsx:37 | `quantity \|\| 1`: never 0; a set non-zero quantity is used as it is, anything else counts as 1 |
| `DishCreation.InitialDraft` | src/pages/DishCreation.tsx:14-20 | a new dish has the empty string as name and description, price 0, no cost, no image and a 30% target, so name and price are both falsy |
| `DishCreation.DishCreationState.constructor` | src/pages/DishCreation.tsx:12-20 | the page starts with the initial draft and two empty selection lists |
| `DishPreview.RecipeContributionIgnoresContents` | src/components/dish-creation/DishPreview.tsx:33 | a recipe adds its stored total cost, whatever its own ingredient list, description and servings hold |
| `DishPreview.IngredientContribution` | src/components/dish-creation/DishPreview.tsx:37 | an ingredient adds its cost times its quantity, or its cost once when the quantity is unset or 0 |
| `DishPreview.TotalCost` | src/components/dish-creation/DishPreview.tsx:29-39 | no selections cost 0; a single recipe costs its total recipe cost; a single ingredient costs its contribution |
| `DishPreview.ComputeTotalCost` | src/components/dish-creation/DishPreview.tsx:29-39 | the two accumulation loops compute the sum of recipe costs plus ingredient cost times effective quantity; empty selections cost 0 |
| `DishPreview.RecomputeCost` | src/components/dish-creation/DishPreview.tsx:29-41 | the effect replaces the draft's cost with the selections' total and changes nothing else |
| `DishPreview.WithRecomputedCost` | src/components/dish-creation/DishPreview.tsx:40 | the recomputed draft differs from the old one only in its cost, which is the total |
| `DishPreview.RecomputeIgnoresPreviousCost` | src/components/dish-creation/DishPreview.tsx:30 | the recomputed cost does not depend on the cost the draft had before |
| `DishPreview.TotalCostOrderIndependent` | src/components/dish-creation/DishPreview.tsx:32-38 | the total cost does not depend on the order in which items were selected |
| `DishPreview.EmptySelectionCostsNothing` | src/components/dish-creation/DishPreview.tsx:30 | with nothing selected the cost is 0 |
| `DishPreview.AppendRecipeCost` | src/components/dish-creation/DishPreview.tsx:32-34 | selecting one more recipe raises the cost by its total recipe cost |
| `DishPreview.AppendIngredientCost` | src/components/dish-creation/DishPreview.tsx:36-38 | selecting one more ingredient raises the cost by its cost times its effective quantity |
| `DishPreview.ReplaceIngredientCost` | src/components/dish-creation/DishPreview.tsx:36-38 | replacing one selected ingredient moves the cost by the difference of the two contributions |
| `DishPreview.DropIngredientCost` | src/components/dish-creation/DishPreview.tsx:36-38 | dropping the ingredient at `k` lowers the cost by its contribution |
| `DishPreview.DropRecipeCost` | src/components/dish-creation/DishPreview.tsx:32-34 | dropping the recipe at `k` lowers the cost by its total recipe cost |
| `DishPreview.TotalCostNonNegative` | src/components/dish-creation/DishPreview.tsx:29-39 | with non-negative costs and quantities the total cost is non-negative |
| `PricingCalculator.Cost` | src/components/dish-creation/PricingCalculator.tsx:16 | an unset cost reads as 0 and a set one as itself |
| `PricingCalculator.Price` | src/components/dish-creation/PricingCalculator.tsx:17 | an unset price reads as 0 and a set one as itself |
| `PricingCalculator.Margin` | src/components/dish-creation/PricingCalculator.tsx:18 | an unset or zero target reads as 30, so the target used is never 0 |
| `PricingCalculator.SuggestedPriceAsWritten` | src/components/dish-creation/PricingCalculator.tsx:21 | the formula as written gives 0 without a positive cost and is infinite exactly when the cost is positive and the margin is 100 |
| `PricingCalculator.MarginOfHundredIsNotFinite` | src/components/dish-creation/PricingCalculator.tsx:36-38 | a 100% target on a positive cost makes the written formula divide by zero |
| `PricingCalculator.SuggestedPrice` | src/components/dish-creation/PricingCalculator.tsx:21 | the suggestion `p` satisfies `p * (100 - margin) = 100 * cost`; it is 0 without a positive cost, absent exactly for a 100% target, at least the cost for targets in [0, 100) and negative above 100 |
| `PricingCalculator.SuggestedPriceMatchesAsWritten` | src/components/dish-creation/PricingCalculator.tsx:21 | wherever the written formula is finite the suggestion equals it, and it is absent where the formula is infinite |
| `PricingCalculator.ActualMargin` | src/components/dish-creation/PricingCalculator.tsx:24 | the margin is 0 without a positive price; otherwise it is the profit as a percentage of the price, below 100 for a positive cost, and positive exactly when the price exceeds the cost |
| `PricingCalculator.Profit` | src/components/dish-creation/PricingCalculator.tsx:27 | profit plus cost is the price; the profit is negative exactly when the price is below the cost |
| `PricingCalculator.MarginIsProfitShare` | src/components/dish-creation/PricingCalculator.tsx:24-27 | for a positive price the margin is profit divided by price, times 100 |
| `PricingCalculator.SuggestedPriceHitsTarget` | src/components/dish-creation/PricingCalculator.tsx:21-24 | at the unrounded suggested price the actual margin is exactly the target |
| `PricingCalculator.StatusOf` | src/components/dish-creation/PricingCalculator.tsx:128-136 | a draft shows "achieved" exactly when its realised margin reaches its target; with a positive target, no price or a price not above the cost shows "no profit margin" |
| `PricingCalculator.Status` | src/components/dish-creation/PricingCalculator.tsx:128-136 | "achieved" exactly when the actual margin reaches the target, "below target" exactly when it is positive but short of it, "no profit margin" otherwise |
| `PricingCalculator.PriceChanged` | src/components/dish-creation/PricingCalculator.tsx:29-31 | a price edit sets the price to the number entered and leaves every other field alone |
| `PricingCalculator.MarginChanged` | src/components/dish-creation/PricingCalculator.tsx:33-40 | a margin edit stores the new target and changes nothing but the price; with a positive cost and a target other than 100 the price becomes `cost / (1 - m/100)` rounded to cents; without a positive cost, or at a 100% target, the price stays |
| `PricingCalculator.MarginChangedPriceAsWritten` | src/components/dish-creation/PricingCalculator.tsx:36-38 | the price the handler writes as the code stands: none without a positive cost, an infinite one exactly at a 100% target, otherwise whole cents |
| `PricingCalculator.MarginEditAtHundredStoresInfinity` | src/components/dish-creation/PricingCalculator.tsx:36-38 | with a positive cost, a 100% target makes the written handler store an infinite price, while the corrected one keeps the price |
| `PricingCalculator.MarginChangedMatchesAsWritten` | src/components/dish-creation/PricingCalculator.tsx:33-40 | wherever the written handler stores a finite price the corrected one stores the same, and where it stores none or an infinite one the corrected one keeps the price |
| `PricingCalculator.SuggestionUsed` | src/components/dish-creation/PricingCalculator.tsx:42-44 | using the suggestion sets the price to the suggestion rounded to cents (0 without a positive cost) and leaves everything else alone; where there is no finite suggestion the draft is unchanged |
| `PricingCalculator.SuggestionUsedPriceAsWritten` | src/components/dish-creation/PricingCalculator.tsx:43 | the price the button writes as the code stands: infinite exactly for a positive cost and a 100% target, 0 without a positive cost, otherwise whole cents |
| `PricingCalculator.SuggestionAtHundredStoresInfinity` | src/components/dish-creation/PricingCalculator.tsx:43 | with a positive cost and a stored 100% target the written button stores an infinite price, while the corrected one leaves the draft alone |
| `PricingCalculator.SuggestionUsedMatchesAsWritten` | src/components/dish-creation/PricingCalculator.tsx:42-44 | wherever the written button stores a finite price the corrected one stores the same |
| `PricingCalculator.PriceEditLeavesMargin` | src/components/dish-creation/PricingCalculator.tsx:29-31 | after a price edit the target is unchanged and the status depends only on the new price, the cost and the target |
| `PricingCalculator.MarginEditSetsSuggestion` | src/components/dish-creation/PricingCalculator.tsx:33-40 | after a margin edit with a positive cost and a target other than 0 and 100, the price is the rounded suggestion for that target |
| `PricingCalculator.ZeroMarginEdit` | src/components/dish-creation/PricingCalculator.tsx:70 | a margin field cleared to 0 stores 0 and prices at the cost, while the suggestion reads the target back as 30 |
| `PricingCalculator.InitialFigures` | src/pages/DishCreation.tsx:14-20 | a fresh draft has cost 0, price 0, target 30, suggestion 0 and shows "no profit margin" |
| `PricingCalculator.HandlePriceChange` | src/components/dish-creation/PricingCalculator.tsx:29-31 | the handler updates the page's draft to `PriceChanged` of the old one |
| `PricingCalculator.HandleMarginChange` | src/components/dish-creation/PricingCalculator.tsx:33-40 | the handler updates the page's draft to `MarginChanged` of the old one |
| `PricingCalculator.UseSuggestedPrice` | src/components/dish-creation/PricingCalculator.tsx:42-44 | the handler updates the page's draft to `SuggestionUsed` of the old one |
| `IngredientSelector.FilteredIngredients` | src/components/dish-creation/IngredientSelector.tsx:51-54 | the offered ingredients are exactly the catalog entries, in catalog order, whose name contains the term case-insensitively and whose id is not selected |
| `IngredientSelector.EmptyTermOffersUnselected` | src/components/dish-creation/IngredientSelector.tsx:51-54 | with an empty term every unselected catalog entry is offered |
| `IngredientSelector.Picked` | src/components/dish-creation/IngredientSelector.tsx:57 | a picked ingredient is the catalog entry with quantity 1 and nothing else changed |
| `IngredientSelector.RemoveById` | src/components/dish-creation/IngredientSelector.tsx:70-72 | removal drops exactly the entries with the id, keeps the rest in order, and keeps the ids distinct |
| `IngredientSelector.UpdateQuantity` | src/components/dish-creation/IngredientSelector.tsx:74-85 | a quantity of 0 or less removes the entry; otherwise the list keeps its length and ids, and only entries with the id get the new quantity |
| `IngredientSelector.Decremented` | src/components/dish-creation/IngredientSelector.tsx:131 | the minus button sends one less than the effective quantity; that is 0 or less exactly when the entry counts as one or less, and 0 for an unset quantity |
| `IngredientSelector.Incremented` | src/components/dish-creation/IngredientSelector.tsx:141 | the plus button sends one more than the effective quantity; that is positive whenever the entry's quantity is not negative, and 2 for an unset quantity |
| `IngredientSelector.DecrementAtOneRemoves` | src/components/dish-creation/IngredientSelector.tsx:131 | pressing minus on an entry that counts as one or less (unset, 0 or 1) removes it |
| `IngredientSelector.IncrementRaises` | src/components/dish-creation/IngredientSelector.tsx:141 | pressing plus sets the entry's quantity to one more than it counted as |
| `IngredientSelector.AddKeepsQuantitiesPositive` | src/components/dish-creation/IngredientSelector.tsx:57-59 | a pick enters at quantity 1, so every selected quantity stays set and positive |
| `IngredientSelector.RemoveKeepsQuantitiesPositive` | src/components/dish-creation/IngredientSelector.tsx:70-72 | removal keeps every selected quantity set and positive |
| `IngredientSelector.UpdateKeepsQuantitiesPositive` | src/components/dish-creation/IngredientSelector.tsx:74-85 | a quantity of 0 or less removes the entry rather than being stored, so every selected quantity stays set and positive |
| `IngredientSelector.AddFromFilteredKeepsIdsDistinct` | src/components/dish-creation/IngredientSelector.tsx:166 | an ingredient picked from the offered list never duplicates a selected id |
| `IngredientSelector.UpdateKeepsIdsDistinct` | src/components/dish-creation/IngredientSelector.tsx:74-85 | quantity updates keep the selected ids distinct |
| `IngredientSelector.UpdateQuantityAt` | src/components/dish-creation/IngredientSelector.tsx:80-84 | with distinct ids a positive update replaces exactly the one matching entry |
| `IngredientSelector.RemoveByIdAt` | src/components/dish-creation/IngredientSelector.tsx:71 | with distinct ids removal slices out exactly the one matching entry |
| `IngredientSelector.DraftAfterAdd` | src/components/dish-creation/IngredientSelector.tsx:61-67 | the first ingredient picked for an unnamed dish names it "<ingredient> Dish"; otherwise the draft is unchanged |
| `IngredientSelector.AddIngredient` | src/components/dish-creation/IngredientSelector.tsx:56-68 | the handler appends the picked copy and updates the draft as `DraftAfterAdd` says |
| `IngredientSelector.RemoveIngredient` | src/components/dish-creation/IngredientSelector.tsx:70-72 | the handler replaces the list with `RemoveById` of it |
| `IngredientSelector.UpdateIngredientQuantity` | src/components/dish-creation/IngredientSelector.tsx:74-85 | the handler replaces the list with `UpdateQuantity` of it |
| `RecipeSelector.FilteredRecipes` | src/components/dish-creation/RecipeSelector.tsx:52-55 | the offered recipes are exactly the catalog recipes, in catalog order, whose name contains the term case-insensitively and whose id is not selected |
| `RecipeSelector.EmptyTermOffersUnselected` | src/components/dish-creation/RecipeSelector.tsx:52-55 | with an empty term every unselected catalog recipe is offered |
| `RecipeSelector.RemoveById` | src/components/dish-creation/RecipeSelector.tsx:71-73 | removal drops exactly the recipes with the id, keeps the rest in order, and keeps the ids distinct |
| `RecipeSelector.RemoveByIdAt` | src/components/dish-creation/RecipeSelector.tsx:72 | with distinct ids removal slices out exactly the one matching recipe |
| `RecipeSelector.AddFromFilteredKeepsIdsDistinct` | src/components/dish-creation/RecipeSelector.tsx:136 | a recipe picked from the offered list never duplicates a selected id |
| `RecipeSelector.DraftAfterAdd` | src/components/dish-creation/RecipeSelector.tsx:61-68 | the first recipe picked for an unnamed dish names it "<recipe> Dish" and gives it the recipe's image; otherwise the draft is unchanged |
| `RecipeSelector.AddRecipe` | src/components/dish-creation/RecipeSelector.tsx:57-69 | the handler appends the recipe as it is and updates the draft as `DraftAfterAdd` says |
| `RecipeSelector.RemoveRecipe` | src/components/dish-creation/RecipeSelector.tsx:71-73 | the handler replaces the list with `RemoveById` of it |
| `ScratchCreator.ParsedOrZero` | src/components/dish-creation/ScratchCreator.tsx:62 | an entry that does not parse is stored as 0, a parsed one as itself |
| `ScratchCreator.SetName` | src/components/dish-creation/ScratchCreator.tsx:49 | the name field replaces the name and nothing else |
| `ScratchCreator.SetCost` | src/components/dish-creation/ScratchCreator.tsx:62 | the cost field replaces the cost with the parsed number or 0, and nothing else |
| `ScratchCreator.SetPrice` | src/components/dish-creation/ScratchCreator.tsx:77 | the price field replaces the price with the parsed number or 0, and nothing else |
| `ScratchCreator.SetDescription` | src/components/dish-creation/ScratchCreator.tsx:93 | the description field replaces the description and nothing else |
| `ScratchCreator.Preview` | src/components/dish-creation/ScratchCreator.tsx:101-121 | the card shows exactly when cost and price are both set and non-zero; profit plus cost is the price and the margin is the profit in percent of the price |
| `ScratchCreator.PreviewAgreesWithCalculator` | src/components/dish-creation/ScratchCreator.tsx:111-117 | the card's profit is the calculator's; for a positive price its margin is too; for a negative price and a positive cost the card shows a positive margin on a negative profit, where the calculator shows 0 |
| `Flow.SelectRecipe` | src/components/dish-creation/RecipeSelector.tsx:57-69 | picking a recipe then running the cost effect leaves the cost at the old total plus the recipe's cost |
| `Flow.DeselectRecipe` | src/components/dish-creation/RecipeSelector.tsx:71-73 | removing a recipe then running the cost effect leaves the draft's cost at the new total |
| `Flow.SelectIngredient` | src/components/dish-creation/IngredientSelector.tsx:56-68 | picking an ingredient then running the cost effect leaves the cost at the old total plus its unit cost |
| `Flow.DeselectIngredient` | src/components/dish-creation/IngredientSelector.tsx:70-72 | removing an ingredient then running the cost effect leaves the draft's cost at the new total |
| `Flow.ChangeQuantity` | src/components/dish-creation/IngredientSelector.tsx:74-85 | changing a quantity then running the cost effect leaves the draft's cost at the new total |
| `Flow.OpenPage` | src/components/dish-creation/DishPreview.tsx:29-41 | on opening, the cost effect runs once on the empty lists, so the draft holds a cost of 0 where the initial draft has none |
| `Flow.SelectedCostNonNegative` | src/components/dish-creation/DishPreview.tsx:29-39 | on lists the screen builds, which hold only positive quantities, non-negative catalog costs give a non-negative dish cost |
| `Flow.QuantityChangeCost` | src/components/dish-creation/DishPreview.tsx:37 | a positive quantity change moves the cost by the unit cost times the change in effective quantity |
| `Flow.RemoveIngredientCost` | src/components/dish-creation/IngredientSelector.tsx:71 | removing a selected ingredient lowers the cost by its contribution |
| `Flow.RemoveRecipeCost` | src/components/dish-creation/RecipeSelector.tsx:72 | removing a selected recipe lowers the cost by its total recipe cost |
| `Flow.RoundedPriceFallsShortOfTarget` | src/components/dish-creation/PricingCalculator.tsx:33-40 | a 3.50 recipe and an ingredient at 2.50 taken twice cost 8.50; a 30% target prices the dish at 12.14, which shows as "below target" |

## Left out

- Rendering, styling, icons and the tab bar (`CreationMethodTabs.tsx`) are presentation only. So is the `creationMethod` state that picks the visible tab.
- `CombinedSelector.tsx` only lays the two selectors side by side. `Index.tsx` is a separate landing page.
- `handleBack` and `handleSaveDish` only log to the console. There is no save or navigation logic to model.
- Image upload (`DishPreview.tsx:43-52`) reads a file through the browser's `FileReader`. That is I/O, so the draft's image is only set when a recipe is picked.
- The name and description inputs of the preview card (`DishPreview.tsx:108-122`) are the same single-field updates as `ScratchCreator.SetName` and `ScratchCreator.SetDescription`.
- Display formatting (`toFixed(2)` for money, `toFixed(1)` for percentages, `|| ''` in input values) only changes what is shown. The margin input's `min`/`max` attributes are advisory in the browser and do not constrain the handler, so they are not modelled.
- The search term is a parameter of the filters. Its `useState` and the text input are not modelled.
- The mock catalogs are data, not logic. The filters and handlers take any catalog as a parameter.
- The `Dish` fields `id`, `isActive`, `createdAt`, `category`, `recipes` and `ingredients` are never set on this screen, so `Draft` omits them. An image that is `null` and one that is absent are both `None`.
- PricingCalculator.MarginChanged: at a positive cost and a 100% target the code stores an infinite price; this member keeps the old price instead. `PricingCalculator.MarginChangedPriceAsWritten` models the stored infinity (see Findings).
- PricingCalculator.HandleMarginChange: adds `newMargin != 100` to the code's `cost > 0` guard, so it keeps the price where the code stores an infinite one, as `PricingCalculator.MarginChanged` does.
- PricingCalculator.SuggestionUsed: at a positive cost and a stored 100% target the code stores an infinite price; this member leaves the draft unchanged instead. `PricingCalculator.SuggestionUsedPriceAsWritten` models the stored infinity (see Findings).
- PricingCalculator.UseSuggestedPrice: skips the write where there is no finite suggestion, as `PricingCalculator.SuggestionUsed` does, where the code stores an infinite price.
- DishPreview.TotalCostOrderIndependent: holds for exact reals. Floating-point addition is not associative, so with IEEE-754 doubles the order of selection can move the last digits of the total.
- JsValues.Round2: exact half-up rounding of the real value. It does not model IEEE-754 doubles, so `toFixed` on a binary value just below a half cent can round differently.
- JsValues.OrElse: `NaN` is not modelled. An entry that does not parse is `None` before `|| 0` applies, which gives the same stored 0.
- Text.Lower: ASCII lower-casing only. Unicode case mapping of `toLowerCase` is not modelled.
- The constructor leaves the cost unset, but the cost effect's first run on mount stores 0 (`Flow.OpenPage`). Every reader on the screen treats the two alike, through `|| 0` and truthiness.
- React's scheduling is modelled as explicit steps in `Flow`: a handler, then the cost effect when a selection changed. Batching, render timing and stale closures are not modelled.
- PricingCalculator.HandleMarginChange: `handleMarginChange` calls `setDishData` twice from the same stale `dishData`. Only the second, effective update (or the first alone when no price is derived) is modelled.

## Findings

| source | as written | input that shows it | evidently intended | confidence | as-written member | corrected member |
|---|---|---|---|---|---|---|
| src/components/dish-creation/PricingCalculator.tsx:21 | the suggested price divides by `1 - margin/100` whenever the cost is positive, so a 100% target gives an infinite suggestion | cost 8.50 with the margin field set to 100 | no finite suggestion exists, so none should be offered | not executed | `PricingCalculator.MarginOfHundredIsNotFinite` | `PricingCalculator.SuggestedPrice` |
| src/components/dish-creation/PricingCalculator.tsx:36-38 | `handleMarginChange` derives the price whenever the cost is positive and stores `parseFloat(Infinity.toFixed(2))`, which is infinite, for a 100% target | cost 8.50 with the margin field set to 100 | the price should stay as it was | not executed | `PricingCalculator.MarginEditAtHundredStoresInfinity` | `PricingCalculator.MarginChanged` |
| src/components/dish-creation/PricingCalculator.tsx:43 | `useSuggestedPrice` stores the rounded suggestion, which is infinite for a positive cost and a 100% target | cost 8.50, target 100, then "use suggested price" pressed | the price should stay as it was | not executed | `PricingCalculator.SuggestionAtHundredStoresInfinity` | `PricingCalculator.SuggestionUsed` |

The code as written is modelled by three members:

- `PricingCalculator.SuggestedPriceAsWritten` is the formula.
- `PricingCalculator.MarginChangedPriceAsWritten` is the price `handleMarginChange` stores.
- `PricingCalculator.SuggestionUsedPriceAsWritten` is the price `useSuggestedPrice` stores.

Each of these is infinite for a positive cost and a 100% target, and the lemma in the as-written column of its
row shows it. The rest of the model uses the corrected members:

- `PricingCalculator.SuggestedPrice` has no value at a 100% target.
- `PricingCalculator.MarginChanged` and `PricingCalculator.SuggestionUsed` then leave the price unchanged.

Three lemmas prove that the corrected members agree with the as-written ones wherever the latter are finite:
`PricingCalculator.SuggestedPriceMatchesAsWritten`, `PricingCalculator.MarginChangedMatchesAsWritten` and
`PricingCalculator.SuggestionUsedMatchesAsWritten`.
