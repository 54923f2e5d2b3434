/** The buying strategy: which market listings are worth buying this cycle.
    A listing must be a configured target at or under its ceiling price,
    affordable and of a plausible quantity; its estimated resale price must
    beat its price by the minimum margin. The survivors are taken greedily
    within the available funds and the per-item diversification limit, ranked
    by profit margin and capped at the per-cycle purchase count. */
module BuyingStrategy {
  import opened Common
  import opened Models
  import opened TradingConfig

  /** Sort key of the ranking. */
  function Profit(o: PurchaseOpportunity): real { o.profitPotential }

  /** Money committed by buying the opportunity's whole listing. */
  function OpportunityCost(o: PurchaseOpportunity): real { o.item.Cost() }

  /** How many opportunities are for the item called `name`. */
  function CountNamed(s: seq<PurchaseOpportunity>, name: string): nat
  {
    CountWhere(s, (o: PurchaseOpportunity) => o.item.name == name)
  }

  /** `_passes_basic_filters`: the listing is a configured target, its unit
      price does not exceed that item's ceiling, the whole listing fits in the
      funds, and the quantity is between 1 and a hundred times the search size. */
  function PassesBasicFilters(cfg: Config, item: MarketItem, funds: real): (b: bool)
    ensures b ==> exists i :: 0 <= i < |cfg.marketSearch.targetItems| && i < |cfg.marketSearch.maxPricePerUnit|
                             && cfg.marketSearch.targetItems[i] == item.name
                             && item.price <= cfg.marketSearch.maxPricePerUnit[i]
    ensures b ==> item.Cost() <= funds
    ensures b ==> 1 <= item.quantity <= cfg.marketSearch.maxItemsPerSearch * 100
    ensures item.name !in cfg.marketSearch.targetItems ==> !b
  {
    if item.name !in cfg.marketSearch.targetItems then false
    else
      var ceiling := CeilingOf(cfg.marketSearch, item.name);
      if ceiling.None? || item.price > ceiling.value then false
      else if item.Cost() > funds then false
      else !(item.quantity <= 0 || item.quantity > cfg.marketSearch.maxItemsPerSearch * 100)
  }

  /** `_estimate_sell_price`: 20% over the asking price for an item without a
      ceiling; otherwise the configured markup over 85% of the ceiling, but
      never more than 130% of the ceiling. */
  function EstimateSellPrice(cfg: Config, item: MarketItem): (r: real)
    ensures CeilingOf(cfg.marketSearch, item.name).None? ==> r == item.price * 1.2
    ensures CeilingOf(cfg.marketSearch, item.name).Some? ==>
              var c := CeilingOf(cfg.marketSearch, item.name).value;
              r <= c * 1.30 && (r == c * 1.30 || r == c * 0.85 * (1.0 + cfg.selling.markupPercentage))
  {
    match CeilingOf(cfg.marketSearch, item.name)
    case None => item.price * 1.2
    case Some(ceiling) =>
      MinReal(ceiling * 0.85 * (1.0 + cfg.selling.markupPercentage), ceiling * 1.30)
  }

  /** `_assess_item_risk`: by listing cost (over 30000 high, over 10000
      medium), one level up when the margin is within 20% of the minimum, and
      at least medium for more than 2000 units. */
  function AssessRisk(cfg: Config, item: MarketItem, profit: real): (r: Level)
    ensures r == Low <==> item.Cost() <= 10000.0 && profit >= cfg.buying.minProfitMargin * 1.2 && item.quantity <= 2000
    ensures r == High <==> item.Cost() > 30000.0 || (item.Cost() > 10000.0 && profit < cfg.buying.minProfitMargin * 1.2)
  {
    var total := item.Cost();
    var base := if total > 30000.0 then High else if total > 10000.0 then Medium else Low;
    var adjusted :=
      if profit < cfg.buying.minProfitMargin * 1.2 then
        (if base == Low then Medium else if base == Medium then High else base)
      else base;
    if item.quantity > 2000 && adjusted == Low then Medium else adjusted
  }

  /** The priority factor of `_calculate_priority_score`: 2 - priority/10
      for a prioritised item, none otherwise. */
  function PriorityFactor(cfg: Config, name: string): (f: real)
    ensures name !in cfg.buying.priorityItems ==> f == 1.0
  {
    if name in cfg.buying.priorityItems then 2.0 - cfg.buying.priorityItems[name] as real * 0.1 else 1.0
  }

  /** The size factors of `_calculate_priority_score`: 1.1 for 100..2000
      units or 0.9 beyond 5000 units, then 1.1 for a listing cost of
      1000..30000. */
  function SizeAdjusted(base: real, quantity: int, cost: real): (r: real)
    ensures base >= 0.0 ==> base * 0.9 <= r <= base * 1.21
    ensures base > 0.0 ==> r > 0.0
  {
    var byQuantity :=
      if 100 <= quantity <= 2000 then base * 1.1
      else if quantity > 5000 then base * 0.9
      else base;
    if 1000.0 <= cost <= 30000.0 then byQuantity * 1.1 else byQuantity
  }

  /** The size factors keep the order of the scores they scale. */
  lemma SizeAdjustedStrict(a: real, b: real, quantity: int, cost: real)
    requires a > b
    ensures SizeAdjusted(a, quantity, cost) > SizeAdjusted(b, quantity, cost)
  {
  }

  /** `_calculate_priority_score`: a hundred times the margin, scaled by the
      priority factor and the size factors. */
  function PriorityScore(cfg: Config, item: MarketItem, profit: real): (score: real)
    ensures item.name !in cfg.buying.priorityItems && profit >= 0.0 ==>
              profit * 90.0 <= score <= profit * 121.0
    ensures item.name !in cfg.buying.priorityItems && profit > 0.0 ==> score > 0.0
  {
    SizeAdjusted(profit * 100.0 * PriorityFactor(cfg, item.name), item.quantity, item.Cost())
  }

  /** A smaller priority number ranks higher, other things equal. */
  lemma SmallerPriorityScoresHigher(cfg: Config, item: MarketItem, profit: real, p1: int, p2: int)
    requires profit > 0.0 && p1 < p2
    ensures var c1 := cfg.(buying := cfg.buying.(priorityItems := cfg.buying.priorityItems[item.name := p1]));
            var c2 := cfg.(buying := cfg.buying.(priorityItems := cfg.buying.priorityItems[item.name := p2]));
            PriorityScore(c1, item, profit) > PriorityScore(c2, item, profit)
  {
    var c1 := cfg.(buying := cfg.buying.(priorityItems := cfg.buying.priorityItems[item.name := p1]));
    var c2 := cfg.(buying := cfg.buying.(priorityItems := cfg.buying.priorityItems[item.name := p2]));
    var f1 := PriorityFactor(c1, item.name);
    var f2 := PriorityFactor(c2, item.name);
    assert f1 == 2.0 - p1 as real * 0.1 && f2 == 2.0 - p2 as real * 0.1;
    MulStrict(profit * 100.0, f1, f2);
    SizeAdjustedStrict(profit * 100.0 * f1, profit * 100.0 * f2, item.quantity, item.Cost());
  }

  lemma MulStrict(x: real, a: real, b: real)
    requires x > 0.0 && a > b
    ensures x * a > x * b
  {
  }

  /** `_evaluate_single_item`: an opportunity exactly when the estimated
      resale price beats the price and the relative margin reaches the minimum.
      A zero price divides by zero, which the source catches: no opportunity. */
  function EvaluateSingleItem(cfg: Config, item: MarketItem): (r: Option<PurchaseOpportunity>)
    ensures r.Some? <==>
              var sell := EstimateSellPrice(cfg, item);
              sell > item.price && item.price != 0.0 && (sell - item.price) / item.price >= cfg.buying.minProfitMargin
    ensures r.Some? ==> r.value.item == item
                        && r.value.estimatedSellPrice == EstimateSellPrice(cfg, item)
                        && r.value.estimatedSellPrice > item.price
                        && r.value.profitPotential * item.price == r.value.estimatedSellPrice - item.price
                        && r.value.profitPotential >= cfg.buying.minProfitMargin
                        && r.value.risk == AssessRisk(cfg, item, r.value.profitPotential)
  {
    var sell := EstimateSellPrice(cfg, item);
    if sell <= item.price then None
    else if item.price == 0.0 then None
    else
      var profit := (sell - item.price) / item.price;
      if profit < cfg.buying.minProfitMargin then None
      else Some(PurchaseOpportunity(item, profit, PriorityScore(cfg, item, profit), sell,
                                    AssessRisk(cfg, item, profit)))
  }

  /** What every selected opportunity satisfies: its listing passed the basic
      filters and the opportunity is that listing's evaluation. */
  predicate Admissible(cfg: Config, funds: real, o: PurchaseOpportunity)
  {
    PassesBasicFilters(cfg, o.item, funds) && EvaluateSingleItem(cfg, o.item) == Some(o)
  }

  /** An admissible opportunity is at or under its ceiling and clears the
      minimum margin. */
  lemma AdmissibleWithinCeiling(cfg: Config, funds: real, o: PurchaseOpportunity)
    requires Admissible(cfg, funds, o)
    ensures GetItemMaxPrice(Some(cfg), o.item.name).Some?
    ensures o.item.price <= GetItemMaxPrice(Some(cfg), o.item.name).value
    ensures o.profitPotential >= cfg.buying.minProfitMargin && o.estimatedSellPrice > o.item.price
  {
  }

  /** The python dict's `get(name, 0)`. */
  function CountOf(counts: map<string, nat>, name: string): nat
  {
    if name in counts then counts[name] else 0
  }

  lemma CountNamedAppend(s: seq<PurchaseOpportunity>, o: PurchaseOpportunity)
    ensures forall n :: CountNamed(s + [o], n) == CountNamed(s, n) + (if o.item.name == n then 1 else 0)
  {
    forall n ensures CountNamed(s + [o], n) == CountNamed(s, n) + (if o.item.name == n then 1 else 0) {
      var p := (x: PurchaseOpportunity) => x.item.name == n;
      CountWhereAppend(s, [o], p);
      assert [o][1..] == [];
    }
  }

  /** What the selection loop of `evaluate_market_items` carries from one
      listing to the next: the opportunities taken so far, what they cost
      together, and how many of each item were taken. */
  datatype SelectState = SelectState(chosen: seq<PurchaseOpportunity>, invested: real, counts: map<string, nat>)

  /** One turn of the selection loop: a listing is taken when it passes the
      basic filters, its name is still under the diversification limit
      (when diversification is on), it evaluates to an opportunity, and its
      cost fits in what the funds have left. The per-name counts move only
      when diversification is on. */
  function SelectStep(cfg: Config, funds: real, s: SelectState, item: MarketItem): (r: SelectState)
    ensures r == s || (EvaluateSingleItem(cfg, item).Some?
                       && r.chosen == s.chosen + [EvaluateSingleItem(cfg, item).value]
                       && r.invested == s.invested + item.Cost())
  {
    var div := cfg.buying.diversificationEnabled;
    if PassesBasicFilters(cfg, item, funds) && (!div || CountOf(s.counts, item.name) < DiversificationLimit) then
      var opportunity := EvaluateSingleItem(cfg, item);
      if opportunity.Some? && s.invested + item.Cost() <= funds then
        SelectState(s.chosen + [opportunity.value], s.invested + item.Cost(),
                    if div then s.counts[item.name := CountOf(s.counts, item.name) + 1] else s.counts)
      else s
    else s
  }

  /** The selection loop run over `items` from an empty state. The running
      total is always the cost of what was taken. */
  function Selection(cfg: Config, items: seq<MarketItem>, funds: real): (r: SelectState)
    ensures r.invested == SumOf(r.chosen, OpportunityCost)
  {
    if |items| == 0 then SelectState([], 0.0, map[])
    else
      var s := Selection(cfg, items[..|items| - 1], funds);
      var r := SelectStep(cfg, funds, s, items[|items| - 1]);
      if r == s then r
      else
        SumOfAppend(s.chosen, [EvaluateSingleItem(cfg, items[|items| - 1]).value], OpportunityCost);
        r
  }

  /** Every opportunity the listings offer, in input order, with no regard
      for funds already spent or for diversification. */
  function Evaluations(cfg: Config, items: seq<MarketItem>, funds: real): (r: seq<PurchaseOpportunity>)
    ensures |r| <= |items|
    ensures forall k :: 0 <= k < |r| ==> Admissible(cfg, funds, r[k]) && r[k].item in items
  {
    if |items| == 0 then []
    else
      var init := items[..|items| - 1];
      var last := items[|items| - 1];
      var e := EvaluateSingleItem(cfg, last);
      assert forall k :: 0 <= k < |init| ==> init[k] in items;
      Evaluations(cfg, init, funds) + (if PassesBasicFilters(cfg, last, funds) && e.Some? then [e.value] else [])
  }

  /** With diversification off and funds enough for every opportunity at
      once, the selection takes every opportunity the listings offer. */
  lemma {:induction false} SelectionTakesAllWhenAffordable(cfg: Config, items: seq<MarketItem>, funds: real)
    requires !cfg.buying.diversificationEnabled
    requires forall k :: 0 <= k < |items| ==> items[k].Cost() >= 0.0
    requires SumOf(Evaluations(cfg, items, funds), OpportunityCost) <= funds
    ensures Selection(cfg, items, funds).chosen == Evaluations(cfg, items, funds)
  {
    if |items| > 0 {
      var init := items[..|items| - 1];
      var last := items[|items| - 1];
      var e := EvaluateSingleItem(cfg, last);
      var tail := if PassesBasicFilters(cfg, last, funds) && e.Some? then [e.value] else [];
      SumOfAppend(Evaluations(cfg, init, funds), tail, OpportunityCost);
      assert SumOf(tail, OpportunityCost) >= 0.0 by {
        if |tail| > 0 { assert tail[0].item == last; }
      }
      assert forall k :: 0 <= k < |init| ==> init[k] == items[k];
      SelectionTakesAllWhenAffordable(cfg, init, funds);
    }
  }

  /** What the selection keeps true after any prefix of the listings: each
      opportunity taken is admissible and comes from the listings, and the
      total stays within the funds once anything was taken. */
  lemma {:induction false} SelectionAdmissible(cfg: Config, items: seq<MarketItem>, funds: real)
    ensures |Selection(cfg, items, funds).chosen| <= |items|
    ensures AllAdmissibleFrom(cfg, funds, Selection(cfg, items, funds).chosen, items)
    ensures |Selection(cfg, items, funds).chosen| > 0 ==> Selection(cfg, items, funds).invested <= funds
  {
    if |items| > 0 {
      var i := |items| - 1;
      assert items[..i + 1] == items;
      SelectionAdmissible(cfg, items[..i], funds);
      SelectStepAdmissible(cfg, funds, Selection(cfg, items[..i], funds), items, i);
    }
  }

  /** One turn of the selection keeps what `SelectionAdmissible` states. */
  lemma SelectStepAdmissible(cfg: Config, funds: real, s: SelectState, items: seq<MarketItem>, i: int)
    requires 0 <= i < |items|
    requires |s.chosen| <= i && AllAdmissibleFrom(cfg, funds, s.chosen, items[..i])
    requires |s.chosen| > 0 ==> s.invested <= funds
    ensures var r := SelectStep(cfg, funds, s, items[i]);
            |r.chosen| <= i + 1 && AllAdmissibleFrom(cfg, funds, r.chosen, items[..i + 1])
            && (|r.chosen| > 0 ==> r.invested <= funds)
  {
    var item := items[i];
    var r := SelectStep(cfg, funds, s, item);
    if r == s {
      AdmissibleSkipped(cfg, funds, s.chosen, items, i);
    } else {
      var o := EvaluateSingleItem(cfg, item).value;
      assert PassesBasicFilters(cfg, item, funds) && s.invested + item.Cost() <= funds;
      AdmissibleTaken(cfg, funds, s.chosen, items, i, o);
    }
  }

  /** With diversification on, the counts the selection keeps are those of
      the taken list, each at most five. */
  lemma {:induction false} SelectionCounts(cfg: Config, items: seq<MarketItem>, funds: real)
    requires cfg.buying.diversificationEnabled
    ensures CountsAgree(Selection(cfg, items, funds).counts, Selection(cfg, items, funds).chosen)
  {
    if |items| > 0 {
      var i := |items| - 1;
      var item := items[i];
      SelectionCounts(cfg, items[..i], funds);
      var s := Selection(cfg, items[..i], funds);
      var r := SelectStep(cfg, funds, s, item);
      if r != s {
        assert CountOf(s.counts, item.name) < DiversificationLimit;
        CountsTaken(s.counts, s.chosen, EvaluateSingleItem(cfg, item).value);
      }
    }
  }

  /** The selection loop of `evaluate_market_items`, in input order: each
      admissible listing is taken when its name is still under the
      diversification limit and its cost fits in what the funds have left. */
  method SelectAffordable(cfg: Config, items: seq<MarketItem>, funds: real) returns (chosen: seq<PurchaseOpportunity>)
    ensures chosen == Selection(cfg, items, funds).chosen
    ensures |chosen| <= |items|
    ensures forall o | o in chosen :: Admissible(cfg, funds, o) && o.item in items
    ensures |chosen| > 0 ==> SumOf(chosen, OpportunityCost) <= funds
    ensures cfg.buying.diversificationEnabled ==> forall n :: CountNamed(chosen, n) <= DiversificationLimit
  {
    chosen := [];
    var invested := 0.0;
    var counts: map<string, nat> := map[];
    var i := 0;
    while i < |items|
      invariant 0 <= i <= |items|
      invariant SelectState(chosen, invested, counts) == Selection(cfg, items[..i], funds)
    {
      var item := items[i];
      SelectionSnoc(cfg, items, i, funds);
      if PassesBasicFilters(cfg, item, funds)
         && (!cfg.buying.diversificationEnabled || CountOf(counts, item.name) < DiversificationLimit)
      {
        var opportunity := EvaluateSingleItem(cfg, item);
        if opportunity.Some? && invested + item.Cost() <= funds {
          if cfg.buying.diversificationEnabled {
            counts := counts[item.name := CountOf(counts, item.name) + 1];
          }
          chosen := chosen + [opportunity.value];
          invested := invested + item.Cost();
        }
      }
      i := i + 1;
    }
    assert items[..i] == items;
    SelectionAdmissible(cfg, items, funds);
    if cfg.buying.diversificationEnabled {
      SelectionCounts(cfg, items, funds);
    }
    forall o | o in chosen ensures Admissible(cfg, funds, o) && o.item in items {
      var k :| 0 <= k < |chosen| && chosen[k] == o;
    }
    forall n | cfg.buying.diversificationEnabled ensures CountNamed(chosen, n) <= DiversificationLimit {
      assert CountOf(counts, n) == CountNamed(chosen, n);
    }
  }

  lemma SelectionSnoc(cfg: Config, items: seq<MarketItem>, i: int, funds: real)
    requires 0 <= i < |items|
    ensures Selection(cfg, items[..i + 1], funds) == SelectStep(cfg, funds, Selection(cfg, items[..i], funds), items[i])
  {
    assert items[..i + 1][..i] == items[..i];
  }

  /** Every chosen opportunity is admissible and comes from `seen`. */
  ghost predicate AllAdmissibleFrom(cfg: Config, funds: real, chosen: seq<PurchaseOpportunity>, seen: seq<MarketItem>)
  {
    forall k :: 0 <= k < |chosen| ==> Admissible(cfg, funds, chosen[k]) && chosen[k].item in seen
  }

  /** The per-name counts match the chosen list and stay within the limit. */
  ghost predicate CountsAgree(counts: map<string, nat>, chosen: seq<PurchaseOpportunity>)
  {
    forall n :: CountOf(counts, n) == CountNamed(chosen, n) <= DiversificationLimit
  }

  lemma AdmissibleTaken(cfg: Config, funds: real, chosen: seq<PurchaseOpportunity>, items: seq<MarketItem>, i: int, o: PurchaseOpportunity)
    requires 0 <= i < |items|
    requires AllAdmissibleFrom(cfg, funds, chosen, items[..i])
    requires Admissible(cfg, funds, o) && o.item == items[i]
    ensures AllAdmissibleFrom(cfg, funds, chosen + [o], items[..i + 1])
  {
    assert items[..i + 1] == items[..i] + [items[i]];
  }

  lemma AdmissibleSkipped(cfg: Config, funds: real, chosen: seq<PurchaseOpportunity>, items: seq<MarketItem>, i: int)
    requires 0 <= i < |items|
    requires AllAdmissibleFrom(cfg, funds, chosen, items[..i])
    ensures AllAdmissibleFrom(cfg, funds, chosen, items[..i + 1])
  {
    assert items[..i + 1] == items[..i] + [items[i]];
  }

  lemma CountsTaken(counts: map<string, nat>, chosen: seq<PurchaseOpportunity>, o: PurchaseOpportunity)
    requires CountsAgree(counts, chosen)
    requires CountOf(counts, o.item.name) < DiversificationLimit
    ensures CountsAgree(counts[o.item.name := CountOf(counts, o.item.name) + 1], chosen + [o])
  {
    CountNamedAppend(chosen, o);
  }

  /** The ranking and the cap of `evaluate_market_items`: a stable sort by
      margin, highest first, then Python's `[:max]` when the list is longer
      than `max`, which for a negative `max` drops entries from the end. */
  function RankAndCap(chosen: seq<PurchaseOpportunity>, max: int): (r: seq<PurchaseOpportunity>)
    ensures NonIncreasing(r, Profit)
    ensures r <= SortDesc(chosen, Profit)
    ensures 0 <= max ==> |r| == Min(|chosen|, max)
    ensures max < 0 ==> |r| == Max(0, |chosen| + max)
  {
    var sorted := SortDesc(chosen, Profit);
    if |sorted| > max then PyPrefix(sorted, max) else sorted
  }

  /** Ranking and capping only reorders and drops opportunities. */
  lemma RankAndCapMembers(chosen: seq<PurchaseOpportunity>, max: int)
    ensures forall o | o in RankAndCap(chosen, max) :: o in chosen
  {
    var sorted := SortDesc(chosen, Profit);
    PermutationMembers(sorted, chosen);
  }

  /** Ranking and capping never raises the count of any item. */
  lemma RankAndCapCounts(chosen: seq<PurchaseOpportunity>, max: int, n: string)
    ensures CountNamed(RankAndCap(chosen, max), n) <= CountNamed(chosen, n)
  {
    var p := (x: PurchaseOpportunity) => x.item.name == n;
    SortDescCount(chosen, Profit, p);
    CountWherePrefix(SortDesc(chosen, Profit), RankAndCap(chosen, max), p);
  }

  /** With no negative costs, ranking and capping never raises the total cost. */
  lemma RankAndCapCost(chosen: seq<PurchaseOpportunity>, max: int)
    requires forall o | o in chosen :: OpportunityCost(o) >= 0.0
    ensures SumOf(RankAndCap(chosen, max), OpportunityCost) <= SumOf(chosen, OpportunityCost)
  {
    var sorted := SortDesc(chosen, Profit);
    SortDescSum(chosen, Profit, OpportunityCost);
    PermutationMembers(sorted, chosen);
    SumOfPrefix(sorted, RankAndCap(chosen, max), OpportunityCost);
  }

  lemma CostNonNegative(item: MarketItem)
    requires item.price >= 0.0 && item.quantity >= 0
    ensures item.Cost() >= 0.0
  {
  }

  /** `evaluate_market_items`. Every returned opportunity is an admissible
      listing from the input; the list is ranked by margin and no longer than
      the per-cycle cap; with diversification on no item appears more than
      five times; and with non-negative prices the listings together cost no
      more than the funds. */
  method EvaluateMarketItems(cfg: Config, items: seq<MarketItem>, funds: real) returns (r: seq<PurchaseOpportunity>)
    ensures r == RankAndCap(Selection(cfg, items, funds).chosen, cfg.buying.maxPurchasesPerCycle)
    ensures forall o | o in r :: Admissible(cfg, funds, o) && o.item in items
    ensures NonIncreasing(r, Profit)
    ensures 0 <= cfg.buying.maxPurchasesPerCycle ==> |r| <= cfg.buying.maxPurchasesPerCycle
    ensures |r| <= |items|
    ensures cfg.buying.diversificationEnabled ==> forall n :: CountNamed(r, n) <= DiversificationLimit
    ensures |r| > 0 && (forall k :: 0 <= k < |items| ==> items[k].price >= 0.0) ==>
              SumOf(r, OpportunityCost) <= funds
  {
    var chosen := SelectAffordable(cfg, items, funds);
    r := RankAndCap(chosen, cfg.buying.maxPurchasesPerCycle);
    RankAndCapMembers(chosen, cfg.buying.maxPurchasesPerCycle);
    forall n ensures CountNamed(r, n) <= CountNamed(chosen, n) {
      RankAndCapCounts(chosen, cfg.buying.maxPurchasesPerCycle, n);
    }
    if |r| > 0 && (forall k :: 0 <= k < |items| ==> items[k].price >= 0.0) {
      forall o | o in chosen ensures OpportunityCost(o) >= 0.0 {
        CostNonNegative(o.item);
      }
      RankAndCapCost(chosen, cfg.buying.maxPurchasesPerCycle);
    }
  }

  /** `get_market_condition_assessment`: the count of opportunities, twice
      that as the scanned estimate, their mean margin (0 when there are none),
      and activity high from 10 opportunities, medium from 5, low below. */
  function GetMarketConditionAssessment(opportunities: seq<PurchaseOpportunity>): (r: MarketCondition)
    ensures r.valuableOpportunities == |opportunities| && r.totalItemsScanned == 2 * |opportunities|
    ensures |opportunities| == 0 ==> r.averageProfitMargin == 0.0
    ensures |opportunities| > 0 ==>
              r.averageProfitMargin * |opportunities| as real == SumOf(opportunities, Profit)
    ensures r.activity == High <==> |opportunities| >= 10
    ensures r.activity == Low <==> |opportunities| < 5
  {
    var n := |opportunities|;
    if n == 0 then MarketCondition(0, 0, 0.0, Low)
    else
      MarketCondition(2 * n, n, SumOf(opportunities, Profit) / n as real,
                      if n >= 10 then High else if n >= 5 then Medium else Low)
  }

  lemma {:induction false} SumOfAtLeast(s: seq<PurchaseOpportunity>, m: real)
    requires forall k :: 0 <= k < |s| ==> s[k].profitPotential >= m
    ensures SumOf(s, Profit) >= |s| as real * m
  {
    if |s| > 0 {
      SumOfAtLeast(s[1..], m);
    }
  }

  /** Every opportunity clears the minimum margin, so their mean does too:
      the reported market margin of a non-empty evaluation is never below the
      configured minimum. */
  lemma AverageMarginAtLeastMinimum(cfg: Config, funds: real, opportunities: seq<PurchaseOpportunity>)
    requires |opportunities| > 0
    requires forall k :: 0 <= k < |opportunities| ==> Admissible(cfg, funds, opportunities[k])
    ensures GetMarketConditionAssessment(opportunities).averageProfitMargin >= cfg.buying.minProfitMargin
  {
    AdmissibleMargins(cfg, funds, opportunities);
    AverageAtLeast(opportunities, cfg.buying.minProfitMargin);
  }

  /** Margins all at least `m` average to at least `m`. */
  lemma AverageAtLeast(opportunities: seq<PurchaseOpportunity>, m: real)
    requires |opportunities| > 0
    requires forall k :: 0 <= k < |opportunities| ==> opportunities[k].profitPotential >= m
    ensures GetMarketConditionAssessment(opportunities).averageProfitMargin >= m
  {
    SumOfAtLeast(opportunities, m);
    AssessmentMean(opportunities);
    MeanAtLeast(SumOf(opportunities, Profit), |opportunities|, m);
  }

  lemma AssessmentMean(opportunities: seq<PurchaseOpportunity>)
    requires |opportunities| > 0
    ensures GetMarketConditionAssessment(opportunities).averageProfitMargin == SumOf(opportunities, Profit) / |opportunities| as real
  {
  }

  lemma AdmissibleMargins(cfg: Config, funds: real, opportunities: seq<PurchaseOpportunity>)
    requires forall k :: 0 <= k < |opportunities| ==> Admissible(cfg, funds, opportunities[k])
    ensures forall k :: 0 <= k < |opportunities| ==> opportunities[k].profitPotential >= cfg.buying.minProfitMargin
  {
    forall k | 0 <= k < |opportunities| ensures opportunities[k].profitPotential >= cfg.buying.minProfitMargin {
      AdmissibleWithinCeiling(cfg, funds, opportunities[k]);
    }
  }

  lemma MeanAtLeast(sum: real, n: nat, m: real)
    requires n > 0 && sum >= n as real * m
    ensures sum / n as real >= m
  {
  }
}
