/** The ingredient picker: catalog search, the selected list and its quantity buttons. */
module IngredientSelector {
  import opened JsValues
  import opened Text
  import opened Seqs
  import opened Pos
  import opened DishCreation

  /** The ids already in the selected list. */
  function SelectedIds(selected: seq<Ingredient>): set<string>
  {
    Keys(selected, IngredientId)
  }

  /** `filteredIngredients`: catalog entries, in catalog order, that match the term and are not selected yet. */
  function FilteredIngredients(catalog: seq<Ingredient>, selected: seq<Ingredient>, term: string): (r: seq<Ingredient>)
    ensures IsSubsequence(r, catalog)
    ensures forall i :: i in r <==> i in catalog && MatchesSearch(i.name, term) && i.id !in SelectedIds(selected)
    ensures forall i :: multiset(r)[i]
                     == if MatchesSearch(i.name, term) && i.id !in SelectedIds(selected) then multiset(catalog)[i] else 0
  {
    Filter(catalog, (i: Ingredient) => MatchesSearch(i.name, term) && i.id !in SelectedIds(selected))
  }

  /** With an empty search term every catalog entry that is not selected is offered. */
  lemma EmptyTermOffersUnselected(catalog: seq<Ingredient>, selected: seq<Ingredient>)
    ensures forall i :: i in FilteredIngredients(catalog, selected, "") <==> i in catalog && i.id !in SelectedIds(selected)
  {
    forall i | i in catalog
      ensures MatchesSearch(i.name, "")
    {
      IncludesEmpty(Lower(i.name));
    }
  }

  /** The entry `addIngredient` appends: the catalog item with quantity 1. */
  function Picked(ingredient: Ingredient): (r: Ingredient)
    ensures r.(quantity := ingredient.quantity) == ingredient
    ensures r.quantity == Some(1.0)
    ensures EffectiveQuantity(r) == 1.0
  {
    ingredient.(quantity := Some(1.0))
  }

  /** `removeIngredient`: every entry with the id is dropped, the rest keep their order. */
  function RemoveById(selected: seq<Ingredient>, id: string): (r: seq<Ingredient>)
    ensures IsSubsequence(r, selected)
    ensures forall i :: i in r <==> i in selected && i.id != id
    ensures forall i :: multiset(r)[i] == if i.id != id then multiset(selected)[i] else 0
    ensures id !in SelectedIds(r)
    ensures id !in SelectedIds(selected) ==> r == selected
    ensures KeysDistinct(selected, IngredientId) ==> KeysDistinct(r, IngredientId)
  {
    RemoveKey(selected, IngredientId, id)
  }

  /** `updateQuantity`: a quantity of 0 or less removes the entry; otherwise only matching entries change. */
  function UpdateQuantity(selected: seq<Ingredient>, id: string, quantity: real): (r: seq<Ingredient>)
    ensures quantity <= 0.0 ==> r == RemoveById(selected, id)
    ensures quantity > 0.0 ==> |r| == |selected|
    ensures quantity > 0.0 ==> forall k :: 0 <= k < |r| ==>
              if selected[k].id == id then r[k] == selected[k].(quantity := Some(quantity)) else r[k] == selected[k]
    ensures quantity > 0.0 ==> SelectedIds(r) == SelectedIds(selected)
  {
    if quantity <= 0.0 then RemoveById(selected, id)
    else
      var r := seq(|selected|, k requires 0 <= k < |selected| =>
                 if selected[k].id == id then selected[k].(quantity := Some(quantity)) else selected[k]);
      assert forall k :: 0 <= k < |r| ==> r[k].id == selected[k].id;
      assert SelectedIds(r) == SelectedIds(selected) by {
        forall x | x in SelectedIds(r) ensures x in SelectedIds(selected) {
          var e :| e in r && e.id == x;
          var k :| 0 <= k < |r| && r[k] == e;
          assert selected[k] in selected;
        }
        forall x | x in SelectedIds(selected) ensures x in SelectedIds(r) {
          var e :| e in selected && e.id == x;
          var k :| 0 <= k < |selected| && selected[k] == e;
          assert r[k] in r;
        }
      }
      r
  }

  /** The value the minus button sends: one less than the quantity the entry counts with. */
  function Decremented(i: Ingredient): (q: real)
    ensures q + 1.0 == EffectiveQuantity(i)
    ensures q <= 0.0 <==> EffectiveQuantity(i) <= 1.0
    ensures i.quantity.None? ==> q == 0.0
  {
    EffectiveQuantity(i) - 1.0
  }

  /** The value the plus button sends: one more than the quantity the entry counts with. */
  function Incremented(i: Ingredient): (q: real)
    ensures q - 1.0 == EffectiveQuantity(i)
    ensures EffectiveQuantity(i) >= 0.0 ==> q > 0.0
    ensures i.quantity.None? ==> q == 2.0
  {
    EffectiveQuantity(i) + 1.0
  }

  /** Pressing minus on an entry counting one or less (unset, 0 or 1 included) removes it. */
  lemma DecrementAtOneRemoves(selected: seq<Ingredient>, i: Ingredient)
    requires EffectiveQuantity(i) <= 1.0
    ensures UpdateQuantity(selected, i.id, Decremented(i)) == RemoveById(selected, i.id)
  {
  }

  /** Pressing plus on an entry with no negative quantity raises it to one more than it counted with. */
  lemma IncrementRaises(selected: seq<Ingredient>, k: nat)
    requires k < |selected|
    requires selected[k].quantity.None? || selected[k].quantity.value >= 0.0
    ensures var r := UpdateQuantity(selected, selected[k].id, Incremented(selected[k]));
            |r| == |selected| && r[k].quantity == Some(EffectiveQuantity(selected[k]) + 1.0)
            && EffectiveQuantity(r[k]) == EffectiveQuantity(selected[k]) + 1.0
  {
    assert EffectiveQuantity(selected[k]) >= 0.0;
  }

  /** Every selected entry carries a set, positive quantity, so `quantity || 1` never fires on it. */
  predicate QuantitiesPositive(selected: seq<Ingredient>)
  {
    forall i :: i in selected ==> i.quantity.Some? && i.quantity.value > 0.0
  }

  /** A picked entry starts at quantity 1, so picking keeps every quantity positive. */
  lemma AddKeepsQuantitiesPositive(selected: seq<Ingredient>, ingredient: Ingredient)
    requires QuantitiesPositive(selected)
    ensures QuantitiesPositive(selected + [Picked(ingredient)])
  {
  }

  /** Removal keeps every quantity positive. */
  lemma RemoveKeepsQuantitiesPositive(selected: seq<Ingredient>, id: string)
    requires QuantitiesPositive(selected)
    ensures QuantitiesPositive(RemoveById(selected, id))
  {
  }

  /** A quantity of 0 or less removes the entry instead of being stored, so updates keep every quantity positive. */
  lemma UpdateKeepsQuantitiesPositive(selected: seq<Ingredient>, id: string, quantity: real)
    requires QuantitiesPositive(selected)
    ensures QuantitiesPositive(UpdateQuantity(selected, id, quantity))
  {
    if quantity > 0.0 {
      var r := UpdateQuantity(selected, id, quantity);
      forall i | i in r
        ensures i.quantity.Some? && i.quantity.value > 0.0
      {
        var k :| 0 <= k < |r| && r[k] == i;
        assert selected[k] in selected;
      }
    }
  }

  /** Adding an entry picked from the filtered list keeps the selected ids pairwise distinct. */
  lemma AddFromFilteredKeepsIdsDistinct(catalog: seq<Ingredient>, selected: seq<Ingredient>, term: string, ingredient: Ingredient)
    requires KeysDistinct(selected, IngredientId)
    requires ingredient in FilteredIngredients(catalog, selected, term)
    ensures KeysDistinct(selected + [Picked(ingredient)], IngredientId)
  {
    AppendFreshKey(selected, Picked(ingredient), IngredientId);
  }

  /** Updating a quantity keeps the selected ids pairwise distinct. */
  lemma UpdateKeepsIdsDistinct(selected: seq<Ingredient>, id: string, quantity: real)
    requires KeysDistinct(selected, IngredientId)
    ensures KeysDistinct(UpdateQuantity(selected, id, quantity), IngredientId)
  {
    if quantity > 0.0 {
      var r := UpdateQuantity(selected, id, quantity);
      assert forall k :: 0 <= k < |r| ==> r[k].id == selected[k].id;
    }
  }

  /** With distinct ids, a positive quantity update replaces the one matching entry. */
  lemma UpdateQuantityAt(selected: seq<Ingredient>, k: nat, quantity: real)
    requires KeysDistinct(selected, IngredientId)
    requires k < |selected| && quantity > 0.0
    ensures UpdateQuantity(selected, selected[k].id, quantity) == selected[k := selected[k].(quantity := Some(quantity))]
  {
  }

  /** With distinct ids, removing an id drops exactly the one entry that carries it. */
  lemma RemoveByIdAt(selected: seq<Ingredient>, k: nat)
    requires KeysDistinct(selected, IngredientId)
    requires k < |selected|
    ensures RemoveById(selected, selected[k].id) == selected[..k] + selected[k + 1..]
  {
    RemoveKeyAt(selected, IngredientId, k);
  }

  /**
   * The draft after `addIngredient`: the first ingredient of an unnamed dish names the
   * dish after itself; otherwise the draft is left as it was.
   */
  function DraftAfterAdd(d: Draft, selected: seq<Ingredient>, ingredient: Ingredient): (r: Draft)
    ensures r.(name := d.name) == d
    ensures !IsTruthyString(d.name) && selected == [] ==> r.name == Some(ingredient.name + " Dish")
    ensures IsTruthyString(d.name) || selected != [] ==> r == d
  {
    if !IsTruthyString(d.name) && |selected + [Picked(ingredient)]| == 1 then d.(name := Some(ingredient.name + " Dish"))
    else d
  }

  /** `addIngredient` on the page's state: a copy with quantity 1 is appended. */
  method AddIngredient(page: DishCreationState, ingredient: Ingredient)
    modifies page`selectedIngredients, page`dish
    ensures page.selectedIngredients == old(page.selectedIngredients) + [Picked(ingredient)]
    ensures page.dish == DraftAfterAdd(old(page.dish), old(page.selectedIngredients), ingredient)
  {
    var newIngredient := ingredient.(quantity := Some(1.0));
    var newSelectedIngredients := page.selectedIngredients + [newIngredient];
    page.selectedIngredients := newSelectedIngredients;
    if !IsTruthyString(page.dish.name) && |newSelectedIngredients| == 1 {
      page.dish := page.dish.(name := Some(ingredient.name + " Dish"));
    }
  }

  /** `removeIngredient` on the page's state. */
  method RemoveIngredient(page: DishCreationState, id: string)
    modifies page`selectedIngredients
    ensures page.selectedIngredients == RemoveById(old(page.selectedIngredients), id)
  {
    page.selectedIngredients := RemoveById(page.selectedIngredients, id);
  }

  /** `updateQuantity` on the page's state. */
  method UpdateIngredientQuantity(page: DishCreationState, id: string, quantity: real)
    modifies page`selectedIngredients
    ensures page.selectedIngredients == UpdateQuantity(old(page.selectedIngredients), id, quantity)
  {
    if quantity <= 0.0 {
      RemoveIngredient(page, id);
      return;
    }
    page.selectedIngredients := UpdateQuantity(page.selectedIngredients, id, quantity);
  }
}
