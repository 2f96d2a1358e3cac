/** The margin/price resolver: suggested price, actual margin, profit, status and the two edits. */
module PricingCalculator {
  import opened JsValues
  import opened Pos
  import opened DishCreation

  /** `dishData.cost || 0`: an unset cost reads as 0. */
  function Cost(d: Draft): (c: real)
    ensures d.cost.Some? ==> c == d.cost.value
    ensures d.cost.None? ==> c == 0.0
  {
    OrElse(d.cost, 0.0)
  }

  /** `dishData.price || 0`: an unset price reads as 0. */
  function Price(d: Draft): (p: real)
    ensures d.price.Some? ==> p == d.price.value
    ensures d.price.None? ==> p == 0.0
  {
    OrElse(d.price, 0.0)
  }

  /** `dishData.margin || 30`: an unset or zero target reads as 30, so the target is never 0. */
  function Margin(d: Draft): (m: real)
    ensures m != 0.0
    ensures IsTruthy(d.margin) ==> m == d.margin.value
    ensures !IsTruthy(d.margin) ==> m == 30.0
  {
    OrElse(d.margin, 30.0)
  }

  /** The suggested-price formula exactly as written: the guard admits a zero denominator. */
  function SuggestedPriceAsWritten(cost: real, margin: real): (q: Quotient)
    ensures cost <= 0.0 ==> q == Finite(0.0)
    ensures q.NotFinite? <==> cost > 0.0 && margin == 100.0
  {
    if cost > 0.0 then Divide(cost, 1.0 - margin / 100.0) else Finite(0.0)
  }

  /** With a positive cost, a margin of 100 makes the written formula divide by zero. */
  lemma MarginOfHundredIsNotFinite(cost: real)
    requires cost > 0.0
    ensures SuggestedPriceAsWritten(cost, 100.0).NotFinite?
  {
  }

  /**
   * The price that yields the target margin on the cost: 0 when there is no positive
   * cost, and no suggestion at all when a margin of 100 leaves no finite price.
   */
  function SuggestedPrice(cost: real, margin: real): (p: Option<real>)
    ensures cost <= 0.0 ==> p == Some(0.0)
    ensures p.None? <==> cost > 0.0 && margin == 100.0
    ensures cost > 0.0 && p.Some? ==> p.value * (100.0 - margin) == 100.0 * cost
    ensures cost > 0.0 && 0.0 <= margin < 100.0 ==> p.Some? && p.value >= cost
    ensures cost > 0.0 && margin > 100.0 ==> p.Some? && p.value < 0.0
  {
    if cost > 0.0 then
      if margin == 100.0 then None
      else
        QuotientFacts(cost, margin);
        Some(cost / (1.0 - margin / 100.0))
    else Some(0.0)
  }

  /** The arithmetic behind the suggestion: its defining equation and its sign. */
  lemma QuotientFacts(cost: real, margin: real)
    requires cost > 0.0 && margin != 100.0
    ensures var p := cost / (1.0 - margin / 100.0);
            p * (100.0 - margin) == 100.0 * cost
            && (0.0 <= margin < 100.0 ==> p >= cost)
            && (margin > 100.0 ==> p < 0.0)
  {
    var d := 1.0 - margin / 100.0;
    var p := cost / d;
    assert p * d == cost;
    assert 100.0 - margin == 100.0 * d;
    assert p * (100.0 - margin) == 100.0 * (p * d);
    if 0.0 <= margin < 100.0 {
      assert 0.0 < d <= 1.0;
      assert p > 0.0;
      assert p * d <= p;
    }
    if margin > 100.0 {
      assert d < 0.0;
    }
  }

  /** Where the written formula gives a finite number, the suggestion is that number. */
  lemma SuggestedPriceMatchesAsWritten(cost: real, margin: real)
    ensures SuggestedPriceAsWritten(cost, margin)
         == (if SuggestedPrice(cost, margin).Some? then Finite(SuggestedPrice(cost, margin).value) else NotFinite)
  {
    if cost > 0.0 && margin != 100.0 {
      var q := SuggestedPriceAsWritten(cost, margin);
      var p := SuggestedPrice(cost, margin).value;
      assert q.value * (1.0 - margin / 100.0) == cost;
      assert p * (1.0 - margin / 100.0) == cost;
      assert 1.0 - margin / 100.0 != 0.0;
    }
  }

  /** The margin a price realises on a cost, in percent of the price; 0 for no positive price. */
  function ActualMargin(cost: real, price: real): (m: real)
    ensures price <= 0.0 ==> m == 0.0
    ensures price > 0.0 ==> m * price == (price - cost) * 100.0
    ensures price > 0.0 && cost > 0.0 ==> m < 100.0
    ensures price > 0.0 ==> (m > 0.0 <==> price > cost)
  {
    if price > 0.0 then
      var m := ((price - cost) / price) * 100.0;
      assert m * price == (price - cost) * 100.0;
      m
    else 0.0
  }

  /** The profit per item; a price below the cost gives a negative profit, never clamped. */
  function Profit(cost: real, price: real): (r: real)
    ensures r + cost == price
    ensures r < 0.0 <==> price < cost
  {
    price - cost
  }

  /** For a positive price the actual margin is the profit as a percentage of the price. */
  lemma MarginIsProfitShare(cost: real, price: real)
    requires price > 0.0
    ensures ActualMargin(cost, price) == Profit(cost, price) / price * 100.0
  {
  }

  /** At the suggested (unrounded) price the actual margin is exactly the target. */
  lemma SuggestedPriceHitsTarget(cost: real, margin: real)
    requires cost > 0.0 && margin < 100.0
    ensures SuggestedPrice(cost, margin).Some?
    ensures ActualMargin(cost, SuggestedPrice(cost, margin).value) == margin
  {
    var p := SuggestedPrice(cost, margin).value;
    assert p * (100.0 - margin) == 100.0 * cost;
    assert p > 0.0;
    var m := ActualMargin(cost, p);
    assert m * p == (p - cost) * 100.0;
    assert m * p == margin * p;
  }

  /** The three badges under the calculator. */
  datatype MarginStatus = TargetAchieved | BelowTarget | NoProfitMargin

  /** Ties count as achieved; a positive margin under the target is below it; anything else has none. */
  function Status(actualMargin: real, target: real): (s: MarginStatus)
    ensures s == TargetAchieved <==> actualMargin >= target
    ensures s == BelowTarget <==> 0.0 < actualMargin < target
    ensures s == NoProfitMargin <==> actualMargin <= 0.0 && actualMargin < target
  {
    if actualMargin >= target then TargetAchieved
    else if actualMargin > 0.0 then BelowTarget
    else NoProfitMargin
  }

  /**
   * The status the calculator shows for a draft: achieved exactly when the realised margin
   * reaches the target; with a positive target, no price or a price not above the cost
   * shows no profit margin.
   */
  function StatusOf(d: Draft): (s: MarginStatus)
    ensures s == TargetAchieved <==> ActualMargin(Cost(d), Price(d)) >= Margin(d)
    ensures Margin(d) > 0.0 && Price(d) <= 0.0 ==> s == NoProfitMargin
    ensures Margin(d) > 0.0 && 0.0 < Price(d) <= Cost(d) ==> s == NoProfitMargin
  {
    Status(ActualMargin(Cost(d), Price(d)), Margin(d))
  }

  /** `handlePriceChange`: only the price is replaced. */
  function PriceChanged(d: Draft, newPrice: real): (r: Draft)
    ensures r.(price := d.price) == d
    ensures Price(r) == newPrice
    ensures Margin(r) == Margin(d) && Cost(r) == Cost(d)
  {
    d.(price := Some(newPrice))
  }

  /**
   * `handleMarginChange`: the target is replaced and, when there is a positive cost,
   * the price is re-derived from it and rounded to cents; otherwise the price stays.
   */
  function MarginChanged(d: Draft, newMargin: real): (r: Draft)
    ensures r.(price := d.price, margin := d.margin) == d
    ensures r.margin == Some(newMargin)
    ensures Cost(r) == Cost(d)
    ensures Cost(d) <= 0.0 || newMargin == 100.0 ==> r.price == d.price
    ensures Cost(d) > 0.0 && newMargin != 100.0 ==> r.price == Some(Round2(Cost(d) / (1.0 - newMargin / 100.0)))
  {
    var cost := Cost(d);
    match SuggestedPrice(cost, newMargin)
    case Some(p) =>
      if cost > 0.0 then d.(margin := Some(newMargin), price := Some(Round2(p)))
      else d.(margin := Some(newMargin))
    case None => d.(margin := Some(newMargin))
  }

  /** `useSuggestedPrice`: the price becomes the suggestion rounded to cents, when there is one. */
  function SuggestionUsed(d: Draft): (r: Draft)
    ensures r.(price := d.price) == d
    ensures Margin(r) == Margin(d) && Cost(r) == Cost(d)
    ensures SuggestedPrice(Cost(d), Margin(d)).Some? ==> r.price == Some(Round2(SuggestedPrice(Cost(d), Margin(d)).value))
    ensures SuggestedPrice(Cost(d), Margin(d)).None? ==> r == d
    ensures Cost(d) <= 0.0 ==> Price(r) == 0.0
  {
    match SuggestedPrice(Cost(d), Margin(d))
    case Some(p) => d.(price := Some(Round2(p)))
    case None => d
  }

  /**
   * The price `handleMarginChange` stores, exactly as written: nothing without a positive
   * cost; otherwise the quotient rounded to cents, which is infinite for a 100% target
   * (`toFixed` and `parseFloat` pass an infinite value through).
   */
  function MarginChangedPriceAsWritten(d: Draft, newMargin: real): (q: Option<Quotient>)
    ensures q.None? <==> Cost(d) <= 0.0
    ensures q.Some? ==> (q.value.NotFinite? <==> newMargin == 100.0)
    ensures q.Some? && q.value.Finite? ==> IsCents(q.value.value)
  {
    if Cost(d) > 0.0 then
      match Divide(Cost(d), 1.0 - newMargin / 100.0)
      case Finite(p) => Some(Finite(Round2(p)))
      case NotFinite => Some(NotFinite)
    else None
  }

  /** With a positive cost, a 100% target makes the written handler store an infinite price. */
  lemma MarginEditAtHundredStoresInfinity(d: Draft)
    requires Cost(d) > 0.0
    ensures MarginChangedPriceAsWritten(d, 100.0) == Some(NotFinite)
    ensures MarginChanged(d, 100.0).price == d.price
  {
  }

  /** Wherever the written handler stores a finite price, the corrected one stores the same. */
  lemma {:induction false} MarginChangedMatchesAsWritten(d: Draft, newMargin: real)
    ensures MarginChangedPriceAsWritten(d, newMargin).None? ==> MarginChanged(d, newMargin).price == d.price
    ensures MarginChangedPriceAsWritten(d, newMargin) == Some(NotFinite) ==> MarginChanged(d, newMargin).price == d.price
    ensures MarginChangedPriceAsWritten(d, newMargin).Some? && MarginChangedPriceAsWritten(d, newMargin).value.Finite?
            ==> MarginChanged(d, newMargin).price == Some(MarginChangedPriceAsWritten(d, newMargin).value.value)
  {
    if Cost(d) > 0.0 && newMargin != 100.0 {
      var den := 1.0 - newMargin / 100.0;
      var q := Divide(Cost(d), den);
      assert den != 0.0;
      assert q.value * den == Cost(d);
      assert (Cost(d) / den) * den == Cost(d);
      assert q.value == Cost(d) / den;
    }
  }

  /**
   * The price `useSuggestedPrice` stores, exactly as written: the suggestion formula rounded
   * to cents, infinite when the cost is positive and the target is 100%.
   */
  function SuggestionUsedPriceAsWritten(d: Draft): (q: Quotient)
    ensures q.NotFinite? <==> Cost(d) > 0.0 && Margin(d) == 100.0
    ensures Cost(d) <= 0.0 ==> q == Finite(0.0)
    ensures q.Finite? ==> IsCents(q.value)
  {
    match SuggestedPriceAsWritten(Cost(d), Margin(d))
    case Finite(p) => Finite(Round2(p))
    case NotFinite => NotFinite
  }

  /** With a positive cost and a stored 100% target, the written button stores an infinite price. */
  lemma SuggestionAtHundredStoresInfinity(d: Draft)
    requires Cost(d) > 0.0 && d.margin == Some(100.0)
    ensures SuggestionUsedPriceAsWritten(d) == NotFinite
    ensures SuggestionUsed(d) == d
  {
  }

  /** Wherever the written button stores a finite price, the corrected one stores the same. */
  lemma SuggestionUsedMatchesAsWritten(d: Draft)
    ensures SuggestionUsedPriceAsWritten(d).NotFinite? ==> SuggestionUsed(d) == d
    ensures SuggestionUsedPriceAsWritten(d).Finite? ==> SuggestionUsed(d).price == Some(SuggestionUsedPriceAsWritten(d).value)
  {
    SuggestedPriceMatchesAsWritten(Cost(d), Margin(d));
  }

  /** Editing the price never moves the target margin, and then the status follows the new price alone. */
  lemma PriceEditLeavesMargin(d: Draft, newPrice: real)
    ensures PriceChanged(d, newPrice).margin == d.margin
    ensures StatusOf(PriceChanged(d, newPrice)) == Status(ActualMargin(Cost(d), newPrice), Margin(d))
  {
  }

  /** After a margin edit with a positive cost and a non-zero target, the price is the rounded suggestion. */
  lemma MarginEditSetsSuggestion(d: Draft, newMargin: real)
    requires Cost(d) > 0.0 && newMargin != 0.0 && newMargin != 100.0
    ensures var r := MarginChanged(d, newMargin);
            Margin(r) == newMargin
            && SuggestedPrice(Cost(r), Margin(r)).Some?
            && r.price == Some(Round2(SuggestedPrice(Cost(r), Margin(r)).value))
  {
  }

  /**
   * A target of 0 is stored as entered but reads back as 30: the price is re-derived
   * with margin 0 (the cost itself, rounded) while the suggestion uses 30.
   */
  lemma ZeroMarginEdit(d: Draft)
    requires Cost(d) > 0.0
    ensures var r := MarginChanged(d, 0.0);
            r.margin == Some(0.0) && Margin(r) == 30.0
            && r.price == Some(Round2(Cost(d)))
            && SuggestedPrice(Cost(r), Margin(r)) == Some(Cost(d) / 0.7)
  {
  }

  /** The figures of a fresh draft: nothing costs anything, the target is 30, no profit margin. */
  lemma InitialFigures()
    ensures Cost(InitialDraft()) == 0.0 && Price(InitialDraft()) == 0.0 && Margin(InitialDraft()) == 30.0
    ensures SuggestedPrice(0.0, 30.0) == Some(0.0)
    ensures StatusOf(InitialDraft()) == NoProfitMargin
  {
  }

  /** `handlePriceChange` on the page's state. */
  method HandlePriceChange(page: DishCreationState, newPrice: real)
    modifies page`dish
    ensures page.dish == PriceChanged(old(page.dish), newPrice)
  {
    page.dish := page.dish.(price := Some(newPrice));
  }

  /** `handleMarginChange` on the page's state; only its final update is modelled. */
  method HandleMarginChange(page: DishCreationState, newMargin: real)
    modifies page`dish
    ensures page.dish == MarginChanged(old(page.dish), newMargin)
  {
    var cost := Cost(page.dish);
    page.dish := page.dish.(margin := Some(newMargin));
    if cost > 0.0 && newMargin != 100.0 {
      var newPrice := cost / (1.0 - newMargin / 100.0);
      page.dish := page.dish.(price := Some(Round2(newPrice)));
    }
  }

  /** `useSuggestedPrice` on the page's state. */
  method UseSuggestedPrice(page: DishCreationState)
    modifies page`dish
    ensures page.dish == SuggestionUsed(old(page.dish))
  {
    var suggested := SuggestedPrice(Cost(page.dish), Margin(page.dish));
    if suggested.Some? {
      page.dish := page.dish.(price := Some(Round2(suggested.value)));
    }
  }
}
