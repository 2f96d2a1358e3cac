/** The recipe picker: catalog search and the selected list. */
module RecipeSelector {
  import opened JsValues
  import opened Text
  import opened Seqs
  import opened Pos
  import opened DishCreation

  /** The ids already in the selected list. */
  function SelectedIds(selected: seq<Recipe>): set<string>
  {
    Keys(selected, RecipeId)
  }

  /** `filteredRecipes`: catalog recipes, in catalog order, that match the term and are not selected yet. */
  function FilteredRecipes(catalog: seq<Recipe>, selected: seq<Recipe>, term: string): (r: seq<Recipe>)
    ensures IsSubsequence(r, catalog)
    ensures forall x :: x in r <==> x in catalog && MatchesSearch(x.name, term) && x.id !in SelectedIds(selected)
    ensures forall x :: multiset(r)[x]
                     == if MatchesSearch(x.name, term) && x.id !in SelectedIds(selected) then multiset(catalog)[x] else 0
  {
    Filter(catalog, (x: Recipe) => MatchesSearch(x.name, term) && x.id !in SelectedIds(selected))
  }

  /** With an empty search term every catalog recipe that is not selected is offered. */
  lemma EmptyTermOffersUnselected(catalog: seq<Recipe>, selected: seq<Recipe>)
    ensures forall x :: x in FilteredRecipes(catalog, selected, "") <==> x in catalog && x.id !in SelectedIds(selected)
  {
    forall x | x in catalog
      ensures MatchesSearch(x.name, "")
    {
      IncludesEmpty(Lower(x.name));
    }
  }

  /** `removeRecipe`: every entry with the id is dropped, the rest keep their order. */
  function RemoveById(selected: seq<Recipe>, id: string): (r: seq<Recipe>)
    ensures IsSubsequence(r, selected)
    ensures forall x :: x in r <==> x in selected && x.id != id
    ensures forall x :: multiset(r)[x] == if x.id != id then multiset(selected)[x] else 0
    ensures id !in SelectedIds(r)
    ensures id !in SelectedIds(selected) ==> r == selected
    ensures KeysDistinct(selected, RecipeId) ==> KeysDistinct(r, RecipeId)
  {
    RemoveKey(selected, RecipeId, id)
  }

  /** With distinct ids, removing an id drops exactly the one entry that carries it. */
  lemma RemoveByIdAt(selected: seq<Recipe>, k: nat)
    requires KeysDistinct(selected, RecipeId)
    requires k < |selected|
    ensures RemoveById(selected, selected[k].id) == selected[..k] + selected[k + 1..]
  {
    RemoveKeyAt(selected, RecipeId, k);
  }

  /** Adding a recipe picked from the filtered list keeps the selected ids pairwise distinct. */
  lemma AddFromFilteredKeepsIdsDistinct(catalog: seq<Recipe>, selected: seq<Recipe>, term: string, recipe: Recipe)
    requires KeysDistinct(selected, RecipeId)
    requires recipe in FilteredRecipes(catalog, selected, term)
    ensures KeysDistinct(selected + [recipe], RecipeId)
  {
    AppendFreshKey(selected, recipe, RecipeId);
  }

  /**
   * The draft after `addRecipe`: the first recipe of an unnamed dish names the dish
   * after itself and gives it its image; otherwise the draft is left as it was.
   */
  function DraftAfterAdd(d: Draft, selected: seq<Recipe>, recipe: Recipe): (r: Draft)
    ensures r.(name := d.name, image := d.image) == d
    ensures !IsTruthyString(d.name) && selected == [] ==>
              r.name == Some(recipe.name + " Dish") && r.image == Some(recipe.image)
    ensures IsTruthyString(d.name) || selected != [] ==> r == d
  {
    if !IsTruthyString(d.name) && |selected + [recipe]| == 1 then d.(name := Some(recipe.name + " Dish"), image := Some(recipe.image))
    else d
  }

  /** `addRecipe` on the page's state: the recipe is appended as it is. */
  method AddRecipe(page: DishCreationState, recipe: Recipe)
    modifies page`selectedRecipes, page`dish
    ensures page.selectedRecipes == old(page.selectedRecipes) + [recipe]
    ensures page.dish == DraftAfterAdd(old(page.dish), old(page.selectedRecipes), recipe)
  {
    var newSelectedRecipes := page.selectedRecipes + [recipe];
    page.selectedRecipes := newSelectedRecipes;
    if !IsTruthyString(page.dish.name) && |newSelectedRecipes| == 1 {
      page.dish := page.dish.(name := Some(recipe.name + " Dish"), image := Some(recipe.image));
    }
  }

  /** `removeRecipe` on the page's state. */
  method RemoveRecipe(page: DishCreationState, id: string)
    modifies page`selectedRecipes
    ensures page.selectedRecipes == RemoveById(old(page.selectedRecipes), id)
  {
    page.selectedRecipes := RemoveById(page.selectedRecipes, id);
  }
}
