/** Manual creation mode: free edits of the draft's fields and the profit preview. */
module ScratchCreator {
  import opened JsValues
  import opened Pos
  import opened DishCreation
  import PricingCalculator

  /**
   * `parseFloat(value) || 0`: the number typed into a numeric field, `None` when it does
   * not parse; an unparsable, empty or zero entry is stored as 0.
   */
  function ParsedOrZero(parsed: Option<real>): (v: real)
    ensures parsed.None? ==> v == 0.0
    ensures parsed.Some? ==> v == parsed.value
  {
    OrElse(parsed, 0.0)
  }

  /** The name field: replaces the name and nothing else. */
  method SetName(page: DishCreationState, value: string)
    modifies page`dish
    ensures page.dish == old(page.dish).(name := Some(value))
  {
    page.dish := page.dish.(name := Some(value));
  }

  /** The cost field: replaces the cost and nothing else. */
  method SetCost(page: DishCreationState, parsed: Option<real>)
    modifies page`dish
    ensures page.dish == old(page.dish).(cost := Some(ParsedOrZero(parsed)))
  {
    page.dish := page.dish.(cost := Some(ParsedOrZero(parsed)));
  }

  /** The price field: replaces the price and nothing else. */
  method SetPrice(page: DishCreationState, parsed: Option<real>)
    modifies page`dish
    ensures page.dish == old(page.dish).(price := Some(ParsedOrZero(parsed)))
  {
    page.dish := page.dish.(price := Some(ParsedOrZero(parsed)));
  }

  /** The description field: replaces the description and nothing else. */
  method SetDescription(page: DishCreationState, value: string)
    modifies page`dish
    ensures page.dish == old(page.dish).(description := Some(value))
  {
    page.dish := page.dish.(description := Some(value));
  }

  /** The three figures of the preview card. */
  datatype ProfitPreview = ProfitPreview(cost: real, profit: real, margin: real)

  /**
   * The preview card: shown only when cost and price are both set and non-zero, so its
   * margin divides by a non-zero price; the profit is price minus cost, the margin the
   * profit in percent of the price.
   */
  function Preview(d: Draft): (r: Option<ProfitPreview>)
    ensures r.Some? <==> IsTruthy(d.cost) && IsTruthy(d.price)
    ensures r.Some? ==> r.value.cost == d.cost.value
    ensures r.Some? ==> r.value.profit + d.cost.value == d.price.value
    ensures r.Some? ==> r.value.margin * d.price.value == r.value.profit * 100.0
  {
    if IsTruthy(d.cost) && IsTruthy(d.price) then
      var profit := d.price.value - d.cost.value;
      var margin := (profit / d.price.value) * 100.0;
      assert margin * d.price.value == profit * 100.0;
      Some(ProfitPreview(d.cost.value, profit, margin))
    else None
  }

  /**
   * Where the preview is shown with a positive price its figures are the calculator's;
   * with a negative price the preview still shows a margin where the calculator reads 0.
   */
  lemma PreviewAgreesWithCalculator(d: Draft)
    requires Preview(d).Some?
    ensures Preview(d).value.profit == PricingCalculator.Profit(PricingCalculator.Cost(d), PricingCalculator.Price(d))
    ensures PricingCalculator.Price(d) > 0.0 ==>
              Preview(d).value.margin == PricingCalculator.ActualMargin(PricingCalculator.Cost(d), PricingCalculator.Price(d))
    ensures PricingCalculator.Price(d) < 0.0 ==>
              PricingCalculator.ActualMargin(PricingCalculator.Cost(d), PricingCalculator.Price(d)) == 0.0
    ensures PricingCalculator.Price(d) < 0.0 && PricingCalculator.Cost(d) > 0.0 ==>
              Preview(d).value.margin > 0.0 && Preview(d).value.profit < 0.0
  {
    var p := Preview(d).value;
    var price := d.price.value;
    if price < 0.0 && d.cost.value > 0.0 {
      assert p.profit < 0.0;
      assert p.margin * price < 0.0;
    }
    if price > 0.0 {
      var m := PricingCalculator.ActualMargin(d.cost.value, price);
      assert m * price == p.profit * 100.0;
      assert p.margin * price == p.profit * 100.0;
    }
  }
}
