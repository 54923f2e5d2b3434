/** The selling strategy: the unit price at which an inventory item is
    listed, which items to list this cycle and in which slots, and which items
    to sell off when inventory space is needed. Whether it is currently the
    US evening peak, and the peak price multiplier, are inputs. */
module SellingStrategy {
  import opened Common
  import opened Text
  import opened Models
  import opened TradingConfig
  import BuyingStrategy

  /** The time-of-day input of the pricing rule. */
  datatype PeakHours = OffPeak | Peak(multiplier: real)

  /** Fallback base prices for items without a ceiling, in lookup order. */
  const DefaultPrices: seq<(string, real)> :=
    [("Painkiller", 25.0), ("Pain Killers", 25.0), ("Bandage", 15.0), ("Bandages", 15.0),
     ("Cooked Fresh Meat", 8.0), ("Water", 5.0), ("Gasoline", 2.5)]

  /** Base price used when no table key matches. */
  const FallbackPrice: real := 10.0

  /** The price of the first key in `table` that occurs in `name`, both
      compared in lower case. */
  function FirstDefault(table: seq<(string, real)>, name: string): Option<real>
  {
    if |table| == 0 then None
    else if Contains(Lower(name), Lower(table[0].0)) then Some(table[0].1)
    else FirstDefault(table[1..], name)
  }

  /** The lookup finds nothing exactly when no key occurs, and otherwise
      the price of the first key that occurs. */
  lemma {:induction false} FirstDefaultSpec(table: seq<(string, real)>, name: string)
    ensures FirstDefault(table, name).None? <==> forall k :: 0 <= k < |table| ==> !Contains(Lower(name), Lower(table[k].0))
    ensures FirstDefault(table, name).Some? ==>
              exists k :: 0 <= k < |table| && Contains(Lower(name), Lower(table[k].0))
                          && FirstDefault(table, name).value == table[k].1
                          && forall j :: 0 <= j < k ==> !Contains(Lower(name), Lower(table[j].0))
  {
    if |table| > 0 && !Contains(Lower(name), Lower(table[0].0)) {
      FirstDefaultSpec(table[1..], name);
      assert forall k :: 1 <= k < |table| ==> table[k] == table[1..][k - 1];
      var r := FirstDefault(table[1..], name);
      if r.Some? {
        var k :| 0 <= k < |table[1..]| && Contains(Lower(name), Lower(table[1..][k].0)) && r.value == table[1..][k].1
                 && forall j :: 0 <= j < k ==> !Contains(Lower(name), Lower(table[1..][j].0));
        assert table[k + 1] == table[1..][k];
      }
    }
  }

  /** The markup actually applied to a configured item: clamped into
      [min, max] when price adjustment is on, the plain markup otherwise. */
  function ClampedMarkup(s: SellingConfig): (m: real)
    ensures !s.priceAdjustmentEnabled ==> m == s.markupPercentage
    ensures s.priceAdjustmentEnabled && s.minMarkupPercentage <= s.maxMarkupPercentage ==>
              s.minMarkupPercentage <= m <= s.maxMarkupPercentage
    ensures s.priceAdjustmentEnabled && s.minMarkupPercentage <= s.markupPercentage <= s.maxMarkupPercentage ==>
              m == s.markupPercentage
  {
    if s.priceAdjustmentEnabled then
      MaxReal(s.minMarkupPercentage, MinReal(s.markupPercentage, s.maxMarkupPercentage))
    else s.markupPercentage
  }

  /** The price cap of a configured item, as a multiple of its ceiling. */
  function CapMultiplier(peak: PeakHours): real
  {
    if peak.Peak? then 1.50 else 1.30
  }

  /** The price of an item without a ceiling: the markup over the first
      matching default price, or over the fallback price. */
  function UnconfiguredPrice(name: string, markup: real): (r: real)
    ensures FirstDefault(DefaultPrices, name).None? ==> r == FallbackPrice * (1.0 + markup)
    ensures FirstDefault(DefaultPrices, name).Some? ==> r == FirstDefault(DefaultPrices, name).value * (1.0 + markup)
  {
    var base := match FirstDefault(DefaultPrices, name)
                case Some(b) => b
                case None => FallbackPrice;
    base * (1.0 + markup)
  }

  /** The price of a configured item from its ceiling and markup: the
      markup over 85% of the ceiling, scaled at peak time, then capped. */
  function ConfiguredPrice(ceiling: real, markup: real, peak: PeakHours): (r: real)
    ensures r <= ceiling * CapMultiplier(peak)
    ensures peak.OffPeak? ==> r == ceiling * 1.30 || r == ceiling * 0.85 * (1.0 + markup)
  {
    var price := ceiling * 0.85 * (1.0 + markup);
    var adjusted := if peak.Peak? then price * peak.multiplier else price;
    MinReal(adjusted, ceiling * CapMultiplier(peak))
  }

  /** `_calculate_selling_price`. A configured item is priced at the clamped
      markup over 85% of its ceiling, scaled by the peak multiplier at peak
      time, and capped at 130% of the ceiling (150% at peak). Any other item
      is priced at the configured markup over the first matching default
      price, or over 10. */
  function CalculateSellingPrice(cfg: Config, name: string, peak: PeakHours): (r: real)
    ensures CeilingOf(cfg.marketSearch, name).Some? ==>
              r <= CeilingOf(cfg.marketSearch, name).value * CapMultiplier(peak)
    ensures CeilingOf(cfg.marketSearch, name).Some? && peak.OffPeak? ==>
              var c := CeilingOf(cfg.marketSearch, name).value;
              r == c * 1.30 || r == c * 0.85 * (1.0 + ClampedMarkup(cfg.selling))
    ensures CeilingOf(cfg.marketSearch, name).None? ==> r == UnconfiguredPrice(name, cfg.selling.markupPercentage)
  {
    match CeilingOf(cfg.marketSearch, name)
    case Some(ceiling) => ConfiguredPrice(ceiling, ClampedMarkup(cfg.selling), peak)
    case None => UnconfiguredPrice(name, cfg.selling.markupPercentage)
  }

  /** Off peak, with the markup inside its configured range or adjustment
      off, the selling price of a configured item is exactly the resale price
      the buying strategy estimated for it. */
  lemma SellingPriceMatchesBuyingEstimate(cfg: Config, item: MarketItem)
    requires CeilingOf(cfg.marketSearch, item.name).Some?
    requires ClampedMarkup(cfg.selling) == cfg.selling.markupPercentage
    ensures CalculateSellingPrice(cfg, item.name, OffPeak) == BuyingStrategy.EstimateSellPrice(cfg, item)
  {
  }

  /** Scaling a non-negative price up and raising its cap never gives a
      lower capped price. */
  lemma CappedScaleUp(price: real, multiplier: real, c: real)
    requires price >= 0.0 && multiplier >= 1.0 && c >= 0.0
    ensures MinReal(price * multiplier, c * 1.50) >= MinReal(price, c * 1.30)
  {
    assert price * multiplier >= price * 1.0;
  }

  /** The unscaled price of a configured item is non-negative. */
  lemma BasePriceNonNegative(c: real, markup: real)
    requires c >= 0.0 && markup >= -1.0
    ensures c * 0.85 * (1.0 + markup) >= 0.0
  {
    assert c * 0.85 >= 0.0;
  }

  /** A peak multiplier of at least 1 never lowers the price of a configured
      item with a non-negative ceiling and markup. */
  lemma PeakNeverCheaper(cfg: Config, name: string, multiplier: real)
    requires CeilingOf(cfg.marketSearch, name).Some? && CeilingOf(cfg.marketSearch, name).value >= 0.0
    requires ClampedMarkup(cfg.selling) >= -1.0
    requires multiplier >= 1.0
    ensures CalculateSellingPrice(cfg, name, Peak(multiplier)) >= CalculateSellingPrice(cfg, name, OffPeak)
  {
    var c := CeilingOf(cfg.marketSearch, name).value;
    var markup := ClampedMarkup(cfg.selling);
    BasePriceNonNegative(c, markup);
    CappedScaleUp(c * 0.85 * (1.0 + markup), multiplier, c);
    assert ConfiguredPrice(c, markup, Peak(multiplier)) >= ConfiguredPrice(c, markup, OffPeak);
  }

  // ---------------------------------------------------------------------
  // The source as written: the peak test reads fields the selling section
  // does not have.

  /** `_calculate_selling_price` as the source runs it: for a configured
      item the peak-hours test reads `peak_hours_enabled`, which the selling
      section does not declare, so the call raises (`None` here); other items
      are priced from the default table. */
  function SellingPriceAsWritten(cfg: Config, name: string): (r: Option<real>)
    ensures r.None? <==> CeilingOf(cfg.marketSearch, name).Some?
    ensures r.Some? ==> r.value == CalculateSellingPrice(cfg, name, OffPeak)
  {
    if CeilingOf(cfg.marketSearch, name).Some? then None
    else Some(CalculateSellingPrice(cfg, name, OffPeak))
  }

  /** `_evaluate_selling_item` as the source runs it: the raised error is
      caught and the item yields no order. */
  function EvaluateSellingItemAsWritten(cfg: Config, item: InventoryItemData): (r: Option<SellOrder>)
    ensures r.Some? ==> r.value.item == item && r.value.sellingPrice > 0.0
  {
    match SellingPriceAsWritten(cfg, item.name)
    case None => None
    case Some(price) =>
      if price <= 0.0 then None
      else Some(SellOrder(item, price, price * item.quantity as real, None))
  }

  /** As written, no configured item, which are the items the bot buys,
      ever becomes a sell order. */
  lemma ConfiguredItemsNeverListedAsWritten(cfg: Config, item: InventoryItemData)
    requires item.name in cfg.marketSearch.targetItems
    requires |cfg.marketSearch.targetItems| == |cfg.marketSearch.maxPricePerUnit|
    ensures EvaluateSellingItemAsWritten(cfg, item).None?
  {
  }

  // ---------------------------------------------------------------------
  // Sell orders

  /** `_evaluate_selling_item`: an order at the computed price, ranked by
      the value of the whole stack, unless the price is not positive. */
  function EvaluateSellingItem(cfg: Config, item: InventoryItemData, peak: PeakHours): (r: Option<SellOrder>)
    ensures r.Some? <==> CalculateSellingPrice(cfg, item.name, peak) > 0.0
    ensures r.Some? ==> r.value.item == item && r.value.slotPosition.None?
                        && r.value.sellingPrice == CalculateSellingPrice(cfg, item.name, peak)
                        && r.value.priorityScore == r.value.sellingPrice * item.quantity as real
  {
    var price := CalculateSellingPrice(cfg, item.name, peak);
    if price <= 0.0 then None
    else Some(SellOrder(item, price, price * item.quantity as real, None))
  }

  /** Whether an item gets an order at all. */
  predicate Sellable(cfg: Config, peak: PeakHours, item: InventoryItemData)
  {
    CalculateSellingPrice(cfg, item.name, peak) > 0.0
  }

  /** The evaluation loop of `plan_selling_strategy`: one order per sellable
      item, in inventory order. */
  function SellCandidates(cfg: Config, items: seq<InventoryItemData>, peak: PeakHours): (r: seq<SellOrder>)
    ensures |r| == CountWhere(items, (x: InventoryItemData) => Sellable(cfg, peak, x))
    ensures forall o | o in r :: o.item in items && EvaluateSellingItem(cfg, o.item, peak) == Some(o)
  {
    if |items| == 0 then []
    else
      var rest := SellCandidates(cfg, items[1..], peak);
      match EvaluateSellingItem(cfg, items[0], peak)
      case None => rest
      case Some(o) => [o] + rest
  }

  /** Ranking value of a sell order: the price of the whole stack. */
  function OrderValue(o: SellOrder): real { o.sellingPrice * o.item.quantity as real }

  /** The slot limit of `plan_selling_strategy`: the least of the free
      slots, the configured slot budget, and the slots left under the
      threshold share of all slots. The last can be negative. */
  function SellLimit(cfg: Config, slots: SellingSlotsStatus): (n: int)
    ensures n <= slots.Available() && n <= cfg.selling.maxSellingSlotsUsed
    ensures n <= Trunc(slots.capacity as real * cfg.selling.sellingSlotsThresholdPercentage) - slots.used
    ensures n == slots.Available() || n == cfg.selling.maxSellingSlotsUsed
            || n == Trunc(slots.capacity as real * cfg.selling.sellingSlotsThresholdPercentage) - slots.used
  {
    Min(slots.Available(),
        Min(cfg.selling.maxSellingSlotsUsed,
            Trunc(slots.capacity as real * cfg.selling.sellingSlotsThresholdPercentage) - slots.used))
  }

  /** Gives the k-th order slot k + 1. */
  function NumberSlots(orders: seq<SellOrder>): (r: seq<SellOrder>)
    ensures |r| == |orders|
    ensures forall k :: 0 <= k < |r| ==> r[k] == orders[k].(slotPosition := Some(k + 1))
  {
    seq(|orders|, k requires 0 <= k < |orders| => orders[k].(slotPosition := Some(k + 1)))
  }

  /** Numbering keeps the ranking order. */
  lemma NumberSlotsKeepsOrder(orders: seq<SellOrder>)
    requires NonIncreasing(orders, OrderValue)
    ensures NonIncreasing(NumberSlots(orders), OrderValue)
  {
  }

  /** `plan_selling_strategy` as written: the ranked candidates sliced with
      the raw limit, so a negative limit keeps all but the last few. */
  function PlanSellingStrategyAsWritten(cfg: Config, items: seq<InventoryItemData>, slots: SellingSlotsStatus,
                                        peak: PeakHours): (r: seq<SellOrder>)
    ensures |items| == 0 || slots.Available() == 0 ==> r == []
    ensures |items| > 0 && slots.Available() > 0 && SellLimit(cfg, slots) < 0 ==>
              |r| == Max(0, |SellCandidates(cfg, items, peak)| + SellLimit(cfg, slots))
  {
    if |items| == 0 || slots.Available() <= 0 then []
    else NumberSlots(PyPrefix(SortDesc(SellCandidates(cfg, items, peak), OrderValue), SellLimit(cfg, slots)))
  }

  /** With 25 of 26 slots in use and the default 95% threshold, one slot is
      free but the threshold leaves -1, and three sellable items become two
      orders. */
  lemma NegativeLimitOverfillsAsWritten(cfg: Config, items: seq<InventoryItemData>, peak: PeakHours)
    requires cfg.selling == DefaultSelling()
    requires |items| > 0 && |SellCandidates(cfg, items, peak)| == 3
    ensures Occupancy(25, 26).Available() == 1
    ensures |PlanSellingStrategyAsWritten(cfg, items, Occupancy(25, 26), peak)| == 2
  {
    assert Trunc(26.0 * 0.95) == 24;
    assert SellLimit(cfg, Occupancy(25, 26)) == -1;
  }

  /** Whenever the slot limit is not negative, the source as written and the
      corrected plan below produce the same orders. */
  lemma PlanAsWrittenAgreesOnNonNegativeLimit(cfg: Config, items: seq<InventoryItemData>, slots: SellingSlotsStatus,
                                              peak: PeakHours)
    requires SellLimit(cfg, slots) >= 0
    ensures PlanSellingStrategyAsWritten(cfg, items, slots, peak) == PlanSellingStrategy(cfg, items, slots, peak)
  {
  }

  /** `plan_selling_strategy` with the slot limit read as "no slots" when
      the threshold is already exceeded: nothing to plan without items or
      free slots; otherwise the most valuable sellable items, highest value
      first, numbered from slot 1, and never more than the limit allows. */
  function PlanSellingStrategy(cfg: Config, items: seq<InventoryItemData>, slots: SellingSlotsStatus,
                               peak: PeakHours): (r: seq<SellOrder>)
    ensures |items| == 0 || slots.Available() == 0 ==> r == []
    ensures |r| <= slots.Available()
    ensures |items| > 0 && slots.Available() > 0 ==>
              |r| == Min(|SellCandidates(cfg, items, peak)|, Max(0, SellLimit(cfg, slots)))
    ensures forall k :: 0 <= k < |r| ==>
              r[k] == SortDesc(SellCandidates(cfg, items, peak), OrderValue)[k].(slotPosition := Some(k + 1))
    ensures NonIncreasing(r, OrderValue)
  {
    if |items| == 0 || slots.Available() <= 0 then []
    else
      var ranked := SortDesc(SellCandidates(cfg, items, peak), OrderValue);
      var kept := PyPrefix(ranked, Max(0, SellLimit(cfg, slots)));
      NumberSlotsKeepsOrder(kept);
      NumberSlots(kept)
  }

  /** Every planned order is for an inventory item, at its computed
      positive price. */
  lemma PlannedOrdersAreSellable(cfg: Config, items: seq<InventoryItemData>, slots: SellingSlotsStatus,
                                 peak: PeakHours, k: nat)
    requires k < |PlanSellingStrategy(cfg, items, slots, peak)|
    ensures var o := PlanSellingStrategy(cfg, items, slots, peak)[k];
            o.item in items && o.sellingPrice == CalculateSellingPrice(cfg, o.item.name, peak) && o.sellingPrice > 0.0
            && o.slotPosition == Some(k + 1)
  {
    var cands := SellCandidates(cfg, items, peak);
    var ranked := SortDesc(cands, OrderValue);
    PermutationMembers(ranked, cands);
    assert ranked[k] in cands;
  }

  // ---------------------------------------------------------------------
  // Clearing inventory space

  function PriorityOf(o: SellOrder): real { o.priorityScore }

  /** An unplaced order for a whole stack at `price`, ranked by the stack's value. */
  function StackOrder(item: InventoryItemData, price: real): SellOrder
  {
    SellOrder(item, price, price * item.quantity as real, None)
  }

  /** Every item as a candidate order, whatever its price. */
  function ClearCandidates(cfg: Config, items: seq<InventoryItemData>, peak: PeakHours): (r: seq<SellOrder>)
    ensures |r| == |items|
    ensures forall k :: 0 <= k < |r| ==> r[k] == StackOrder(items[k], CalculateSellingPrice(cfg, items[k].name, peak))
  {
    if |items| == 0 then []
    else
      var rest := ClearCandidates(cfg, items[1..], peak);
      var r := [StackOrder(items[0], CalculateSellingPrice(cfg, items[0].name, peak))] + rest;
      assert forall k :: 1 <= k < |r| ==> r[k] == rest[k - 1];
      r
  }

  /** Every candidate is one of the inventory's stacks. */
  lemma ClearCandidatesFromInventory(cfg: Config, items: seq<InventoryItemData>, peak: PeakHours)
    ensures forall o | o in ClearCandidates(cfg, items, peak) :: o.item in items
  {
    var c := ClearCandidates(cfg, items, peak);
    forall o | o in c ensures o.item in items {
      var k :| 0 <= k < |c| && c[k] == o;
      assert o.item == items[k];
    }
  }

  /** The items whose pricing does not read the missing peak-hours field:
      those that are not configured targets. */
  function Unconfigured(cfg: Config, items: seq<InventoryItemData>): (r: seq<InventoryItemData>)
    ensures |r| <= |items|
    ensures forall k :: 0 <= k < |r| ==> r[k] in items && CeilingOf(cfg.marketSearch, r[k].name).None?
  {
    if |items| == 0 then []
    else (if CeilingOf(cfg.marketSearch, items[0].name).None? then [items[0]] else []) + Unconfigured(cfg, items[1..])
  }

  /** The candidate list of `should_clear_inventory_space` as the source runs
      it: pricing a configured item raises, the loop catches the error and
      skips the item. */
  function ClearCandidatesAsWritten(cfg: Config, items: seq<InventoryItemData>): (r: seq<SellOrder>)
    ensures |r| <= |items|
    ensures forall k :: 0 <= k < |r| ==> r[k].item in items && CeilingOf(cfg.marketSearch, r[k].item.name).None?
  {
    if |items| == 0 then []
    else
      var price := SellingPriceAsWritten(cfg, items[0].name);
      (if price.None? then [] else [StackOrder(items[0], price.value)]) + ClearCandidatesAsWritten(cfg, items[1..])
  }

  /** As written, the candidates are exactly those the intended code would
      build from the unconfigured items alone, at any time of day. */
  lemma {:induction false} ClearCandidatesAsWrittenSkipsConfigured(cfg: Config, items: seq<InventoryItemData>, peak: PeakHours)
    ensures ClearCandidatesAsWritten(cfg, items) == ClearCandidates(cfg, Unconfigured(cfg, items), peak)
  {
    if |items| > 0 {
      var x := items[0];
      ClearCandidatesAsWrittenSkipsConfigured(cfg, items[1..], peak);
      var rest := Unconfigured(cfg, items[1..]);
      var tail := ClearCandidates(cfg, rest, peak);
      if CeilingOf(cfg.marketSearch, x.name).None? {
        var o := StackOrder(x, CalculateSellingPrice(cfg, x.name, peak));
        assert ClearCandidatesAsWritten(cfg, items) == [o] + tail;
        assert Unconfigured(cfg, items) == [x] + rest;
        assert ([x] + rest)[1..] == rest;
      } else {
        assert Unconfigured(cfg, items) == rest;
      }
    }
  }

  /** A lone configured stack: the intended clearing offers it, the source
      as written finds no candidate at all. */
  lemma ConfiguredStackNeverClearedAsWritten(cfg: Config, item: InventoryItemData, spaceNeeded: int, peak: PeakHours)
    requires CeilingOf(cfg.marketSearch, item.name).Some?
    requires spaceNeeded > 0
    ensures ClearCandidatesAsWritten(cfg, [item]) == []
    ensures ShouldClearInventorySpace(cfg, [item], spaceNeeded, peak) == [ClearCandidates(cfg, [item], peak)[0]]
  {
    var cands := ClearCandidates(cfg, [item], peak);
    assert multiset(ShouldClearInventorySpace(cfg, [item], spaceNeeded, peak)) <= multiset(cands);
    assert cands == [cands[0]];
  }

  /** How many slots to free: just the need under light pressure; under
      pressure (at least `int(max_inventory_slots_used * threshold)` items)
      the need plus half of it again, at least 5 more. */
  function SpaceToClear(cfg: Config, itemCount: nat, spaceNeeded: int): (n: int)
    requires spaceNeeded > 0
    ensures n >= spaceNeeded
    ensures itemCount < Trunc(cfg.selling.maxInventorySlotsUsed as real * cfg.selling.inventoryThresholdPercentage)
            <==> n == spaceNeeded
  {
    var pressure := Trunc(cfg.selling.maxInventorySlotsUsed as real * cfg.selling.inventoryThresholdPercentage);
    if itemCount < pressure then spaceNeeded
    else spaceNeeded + Max(5, Trunc(spaceNeeded as real * 0.5))
  }

  /** `should_clear_inventory_space`: nothing when no space is needed;
      otherwise the cheapest stacks first, as many as there is space to
      clear. */
  function ShouldClearInventorySpace(cfg: Config, items: seq<InventoryItemData>, spaceNeeded: int,
                                     peak: PeakHours): (r: seq<SellOrder>)
    ensures spaceNeeded <= 0 ==> r == []
    ensures spaceNeeded > 0 ==> |r| == Min(|items|, SpaceToClear(cfg, |items|, spaceNeeded))
    ensures spaceNeeded > 0 ==> |r| >= Min(|items|, spaceNeeded)
    ensures forall i, j :: 0 <= i < j < |r| ==> r[i].priorityScore <= r[j].priorityScore
    ensures forall o | o in r :: o.item in items
    ensures multiset(r) <= multiset(ClearCandidates(cfg, items, peak))
    ensures forall o, p | o in r && p in multiset(ClearCandidates(cfg, items, peak)) - multiset(r) ::
              o.priorityScore <= p.priorityScore
  {
    if spaceNeeded <= 0 then []
    else
      var cands := ClearCandidates(cfg, items, peak);
      ClearCandidatesFromInventory(cfg, items, peak);
      LowestN(cands, SpaceToClear(cfg, |items|, spaceNeeded), PriorityOf)
  }
}
