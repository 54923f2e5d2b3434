/** The trading configuration: its sections and their defaults, the
    validation rules, the per-item lookups (ceiling price, priority, target
    membership), the built-in default configuration and dotted-path updates.
    Reading and writing the configuration file is outside the model; where
    the manager would load the file, the loaded configuration is a parameter. */
module TradingConfig {
  import opened Common
  import Text

  datatype MarketSearchConfig = MarketSearchConfig(
    targetItems: seq<string>,
    maxPricePerUnit: seq<real>,
    maxItemsPerSearch: int,
    searchTimeoutSeconds: int)

  datatype BuyingConfig = BuyingConfig(
    minProfitMargin: real,
    maxPurchasesPerCycle: int,
    diversificationEnabled: bool,
    priorityItems: map<string, int>,
    priceAnalysisSamples: int)

  datatype SellingConfig = SellingConfig(
    markupPercentage: real,
    minMarkupPercentage: real,
    maxMarkupPercentage: real,
    maxInventorySlotsUsed: int,
    inventoryThresholdPercentage: real,
    maxSellingSlotsUsed: int,
    sellingSlotsThresholdPercentage: real,
    priceAdjustmentEnabled: bool)

  datatype RiskManagementConfig = RiskManagementConfig(
    maxConsecutiveFailures: int,
    failureCooldownMinutes: int,
    antiDetectionEnabled: bool,
    randomDelayRange: (int, int),
    maxOperationsPerHour: int)

  datatype PerformanceConfig = PerformanceConfig(
    marketCacheDurationMinutes: int,
    priceCacheDurationMinutes: int,
    operationTimeoutSeconds: int,
    maxRetries: int,
    retryDelaySeconds: int,
    exponentialBackoff: bool)

  datatype Config = Config(
    marketSearch: MarketSearchConfig,
    buying: BuyingConfig,
    selling: SellingConfig,
    riskManagement: RiskManagementConfig,
    performance: PerformanceConfig,
    tradingEnabled: bool,
    debugMode: bool,
    dryRunMode: bool,
    maxTradingCycles: int,
    cycleIntervalMinutes: int,
    sessionTimeoutHours: int,
    detailedLogging: bool,
    logAllMarketData: bool)

  // Fixed values exposed as read-only properties of the sections.
  /** `BuyingConfig.diversification_limit`. */
  const DiversificationLimit: nat := 5
  /** `RiskManagementConfig.normal_wait_seconds`. */
  const NormalWaitSeconds: nat := 60
  /** `RiskManagementConfig.blocked_wait_seconds`. */
  const BlockedWaitSeconds: nat := 300
  /** `RiskManagementConfig.login_retry_wait_seconds`. */
  const LoginRetryWaitSeconds: nat := 30
  /** `RiskManagementConfig.max_login_retries`. */
  const MaxLoginRetries: nat := 5

  /** Default section values, as declared on the dataclasses. */
  function DefaultBuying(priorities: map<string, int>): BuyingConfig
  {
    BuyingConfig(0.15, 10, true, priorities, 20)
  }

  function DefaultSelling(): SellingConfig
  {
    SellingConfig(0.2, 0.1, 0.5, 25, 0.8, 25, 0.95, true)
  }

  function DefaultRisk(): RiskManagementConfig
  {
    RiskManagementConfig(3, 5, true, (2, 8), 50)
  }

  function DefaultPerformance(): PerformanceConfig
  {
    PerformanceConfig(1, 1, 60, 3, 5, true)
  }

  /** The items the default configuration trades, in list order. */
  const DefaultItems: seq<string> := ["12.7mm Rifle Bullets", "14mm Rifle Bullets", "9mm Rifle Bullets",
                                      "10 Gauge Shells", "12 Gauge Shells", "Energy Cell", "Gasoline"]

  /** Their per-unit price ceilings. */
  const DefaultCeilings: seq<real> := [11.0, 13.0, 11.0, 15.0, 16.0, 15.0, 3.0]

  /** Their priorities, 1 to 7 in list order. */
  const DefaultPriorities: map<string, int> :=
    map[DefaultItems[0] := 1, DefaultItems[1] := 2, DefaultItems[2] := 3, DefaultItems[3] := 4,
        DefaultItems[4] := 5, DefaultItems[5] := 6, DefaultItems[6] := 7]

  /** `_create_default_config`: seven ammunition and fuel items with their
      ceilings and priorities 1 to 7 in list order. */
  function DefaultConfig(): Config
  {
    Config(
      MarketSearchConfig(DefaultItems, DefaultCeilings, 13, 15),
      DefaultBuying(DefaultPriorities),
      DefaultSelling(),
      DefaultRisk(),
      DefaultPerformance(),
      true, false, false, 0, 10, 8, true, false)
  }

  // ---------------------------------------------------------------------
  // Validation

  /** Why `validate_config` raised `ValueError`, in the order it checks. */
  datatype ValidationError =
    | NotLoaded
    | LengthMismatch(items: nat, prices: nat)
    | NonPositivePrice(index: nat)
    | MarginOutOfRange
    | DelayRangeNotIncreasing

  datatype Validation = Valid | Invalid(error: ValidationError)

  /** The configuration rules, stated independently of the order of checks. */
  ghost predicate WellFormed(c: Config)
  {
    && |c.marketSearch.targetItems| == |c.marketSearch.maxPricePerUnit|
    && (forall i :: 0 <= i < |c.marketSearch.maxPricePerUnit| ==> c.marketSearch.maxPricePerUnit[i] > 0.0)
    && 0.0 < c.buying.minProfitMargin < 1.0
    && c.riskManagement.randomDelayRange.0 < c.riskManagement.randomDelayRange.1
  }

  /** The position of the first price that is not positive, if any. */
  function FirstNonPositive(prices: seq<real>): (r: Option<nat>)
    ensures r.None? <==> forall i :: 0 <= i < |prices| ==> prices[i] > 0.0
    ensures r.Some? ==> r.value < |prices| && prices[r.value] <= 0.0
                        && forall i :: 0 <= i < r.value ==> prices[i] > 0.0
  {
    if |prices| == 0 then None
    else if prices[0] <= 0.0 then Some(0)
    else match FirstNonPositive(prices[1..])
      case None => None
      case Some(k) => Some(k + 1)
  }

  /** `validate_config`: the first rule broken, or `Valid`. */
  function ValidateConfig(c: Option<Config>): (r: Validation)
    ensures c.None? ==> r == Invalid(NotLoaded)
    ensures c.Some? ==> (r == Valid <==> WellFormed(c.value))
    ensures c.Some? && r.Invalid? && r.error.NonPositivePrice? ==>
      |c.value.marketSearch.targetItems| == |c.value.marketSearch.maxPricePerUnit|
      && r.error.index < |c.value.marketSearch.maxPricePerUnit|
      && c.value.marketSearch.maxPricePerUnit[r.error.index] <= 0.0
    ensures c.Some? && r.Invalid? && r.error.MarginOutOfRange? ==>
      !(0.0 < c.value.buying.minProfitMargin < 1.0)
    ensures c.Some? && r.Invalid? && r.error.DelayRangeNotIncreasing? ==>
      c.value.riskManagement.randomDelayRange.0 >= c.value.riskManagement.randomDelayRange.1
  {
    match c
    case None => Invalid(NotLoaded)
    case Some(cfg) =>
      var ms := cfg.marketSearch;
      if |ms.targetItems| != |ms.maxPricePerUnit| then
        Invalid(LengthMismatch(|ms.targetItems|, |ms.maxPricePerUnit|))
      else if FirstNonPositive(ms.maxPricePerUnit).Some? then
        Invalid(NonPositivePrice(FirstNonPositive(ms.maxPricePerUnit).value))
      else if !(0.0 < cfg.buying.minProfitMargin < 1.0) then
        Invalid(MarginOutOfRange)
      else if cfg.riskManagement.randomDelayRange.0 >= cfg.riskManagement.randomDelayRange.1 then
        Invalid(DelayRangeNotIncreasing)
      else
        Valid
  }

  /** A length mismatch is reported before any other rule. */
  lemma LengthMismatchFirst(c: Config)
    requires |c.marketSearch.targetItems| != |c.marketSearch.maxPricePerUnit|
    ensures ValidateConfig(Some(c)) == Invalid(LengthMismatch(|c.marketSearch.targetItems|, |c.marketSearch.maxPricePerUnit|))
  {
  }

  /** The default configuration passes validation, lists seven items with
      positive ceilings and gives them priorities 1 to 7 in list order. */
  lemma DefaultConfigIsValid()
    ensures ValidateConfig(Some(DefaultConfig())) == Valid
    ensures |DefaultConfig().marketSearch.targetItems| == 7
    ensures forall i :: 0 <= i < 7 ==>
      DefaultConfig().marketSearch.targetItems[i] in DefaultConfig().buying.priorityItems
      && DefaultConfig().buying.priorityItems[DefaultConfig().marketSearch.targetItems[i]] == i + 1
  {
    DefaultCeilingsPositive();
    DefaultPrioritiesInOrder();
  }

  lemma DefaultCeilingsPositive()
    ensures |DefaultCeilings| == |DefaultItems| == 7
    ensures forall i :: 0 <= i < |DefaultCeilings| ==> DefaultCeilings[i] > 0.0
  {
  }

  lemma DefaultItemsDistinct()
    ensures forall i, j :: 0 <= i < j < |DefaultItems| ==> DefaultItems[i] != DefaultItems[j]
  {
    var items := DefaultItems;
    forall i, j | 0 <= i < j < 7 ensures items[i] != items[j] {
      assert |items[i]| != |items[j]| || items[i][1] != items[j][1];
    }
  }

  lemma DefaultPrioritiesInOrder()
    ensures forall i :: 0 <= i < 7 ==> DefaultItems[i] in DefaultPriorities && DefaultPriorities[DefaultItems[i]] == i + 1
  {
    DefaultItemsDistinct();
  }

  // ---------------------------------------------------------------------
  // Lookups

  /** `get_item_max_price`: the ceiling paired with the first occurrence of
      the name, or nothing when no configuration is loaded, the name is not
      a target, or the price list is too short. */
  function GetItemMaxPrice(c: Option<Config>, name: string): (r: Option<real>)
    ensures r.Some? <==> c.Some? && name in c.value.marketSearch.targetItems
                         && FirstIndex(c.value.marketSearch.targetItems, name) < |c.value.marketSearch.maxPricePerUnit|
    ensures r.Some? ==> exists i :: 0 <= i < |c.value.marketSearch.targetItems|
                          && i < |c.value.marketSearch.maxPricePerUnit|
                          && c.value.marketSearch.targetItems[i] == name
                          && r.value == c.value.marketSearch.maxPricePerUnit[i]
                          && name !in c.value.marketSearch.targetItems[..i]
  {
    match c
    case None => None
    case Some(cfg) => CeilingOf(cfg.marketSearch, name)
  }

  /** The ceiling lookup shared by the configuration manager and the buying
      strategy: index of the first occurrence, then the price at that index. */
  function CeilingOf(ms: MarketSearchConfig, name: string): (r: Option<real>)
    ensures r.Some? <==> name in ms.targetItems && FirstIndex(ms.targetItems, name) < |ms.maxPricePerUnit|
    ensures r.Some? ==> var i := FirstIndex(ms.targetItems, name);
                        0 <= i < |ms.maxPricePerUnit| && r.value == ms.maxPricePerUnit[i]
  {
    var i := FirstIndex(ms.targetItems, name);
    if i == -1 || i >= |ms.maxPricePerUnit| then None else Some(ms.maxPricePerUnit[i])
  }

  /** `get_item_priority`: the configured priority, 999 otherwise. */
  function GetItemPriority(c: Option<Config>, name: string): (p: int)
    ensures c.None? ==> p == 999
    ensures c.Some? && name !in c.value.buying.priorityItems ==> p == 999
    ensures c.Some? && name in c.value.buying.priorityItems ==> p == c.value.buying.priorityItems[name]
  {
    match c
    case None => 999
    case Some(cfg) => if name in cfg.buying.priorityItems then cfg.buying.priorityItems[name] else 999
  }

  /** `is_target_item`. */
  function IsTargetItem(c: Option<Config>, name: string): (b: bool)
    ensures b <==> c.Some? && name in c.value.marketSearch.targetItems
  {
    c.Some? && name in c.value.marketSearch.targetItems
  }

  /** In a valid configuration every target item has a positive ceiling, so
      the two lookups agree on which items are configured. */
  lemma ValidTargetsHaveCeilings(c: Config, name: string)
    requires ValidateConfig(Some(c)) == Valid
    ensures IsTargetItem(Some(c), name) <==> GetItemMaxPrice(Some(c), name).Some?
    ensures IsTargetItem(Some(c), name) ==> GetItemMaxPrice(Some(c), name).value > 0.0
  {
  }

  // ---------------------------------------------------------------------
  // Dotted-path updates

  /** A value written by an update. */
  datatype Value =
    | IntValue(i: int)
    | RealValue(r: real)
    | BoolValue(b: bool)
    | StringsValue(ss: seq<string>)
    | RealsValue(rs: seq<real>)
    | PrioritiesValue(m: map<string, int>)
    | PairValue(lo: int, hi: int)

  /** A value as a `float` field holds it. Python's `bool` is an `int`, so
      `True` and `False` behave as 1 and 0 in every comparison. */
  function AsReal(v: Value): (r: Option<real>)
    ensures v.IntValue? || v.RealValue? || v.BoolValue? <==> r.Some?
    ensures v.BoolValue? ==> r == Some(if v.b then 1.0 else 0.0)
  {
    match v
    case IntValue(i) => Some(i as real)
    case RealValue(r) => Some(r)
    case BoolValue(b) => Some(if b then 1.0 else 0.0)
    case _ => None
  }

  /** A value as an `int` field holds it, `True` and `False` being 1 and 0. */
  function AsInt(v: Value): (r: Option<int>)
    ensures v.IntValue? || v.BoolValue? <==> r.Some?
    ensures v.BoolValue? ==> r == Some(if v.b then 1 else 0)
  {
    match v
    case IntValue(i) => Some(i)
    case BoolValue(b) => Some(if b then 1 else 0)
    case _ => None
  }

  /** A value as a flag field is read: the fields are only ever tested with
      `if`, so any value stands for its truth value (non-zero numbers and
      non-empty collections are true). */
  function AsBool(v: Value): (r: Option<bool>)
    ensures r.Some?
    ensures v.BoolValue? ==> r == Some(v.b)
  {
    match v
    case BoolValue(b) => Some(b)
    case IntValue(i) => Some(i != 0)
    case RealValue(x) => Some(x != 0.0)
    case StringsValue(ss) => Some(|ss| > 0)
    case RealsValue(rs) => Some(|rs| > 0)
    case PrioritiesValue(m) => Some(|m| > 0)
    case PairValue(_, _) => Some(true)
  }

  /** What `setattr` does to one field, as far as the field's type can hold
      the value: the value when it can, the old value otherwise. Python
      would store the value anyway; the cases that cannot be represented
      here are a `float` in an `int` field and a list, mapping or pair in a
      scalar field, or a scalar in a list field. */
  function Pick<T>(o: Option<T>, old_: T): T
  {
    if o.Some? then o.value else old_
  }

  /** Names that are read-only properties of a section: `setattr` on them
      raises `AttributeError`. */
  predicate IsReadOnlyProperty(section: string, leaf: string)
  {
    || (section == "market_search" && leaf == "primary_search_terms")
    || (section == "buying" && leaf in ["max_total_investment", "max_item_price",
                                        "max_high_risk_purchases", "diversification_limit"])
    || (section == "risk_management" && leaf in ["normal_wait_seconds", "blocked_wait_seconds",
                                                 "login_retry_wait_seconds", "max_retries",
                                                 "max_login_retries"])
  }

  function SetMarketSearch(s: MarketSearchConfig, leaf: string, v: Value): MarketSearchConfig
  {
    if leaf == "target_items" then s.(targetItems := if v.StringsValue? then v.ss else s.targetItems)
    else if leaf == "max_price_per_unit" then s.(maxPricePerUnit := if v.RealsValue? then v.rs else s.maxPricePerUnit)
    else if leaf == "max_items_per_search" then s.(maxItemsPerSearch := Pick(AsInt(v), s.maxItemsPerSearch))
    else if leaf == "search_timeout_seconds" then s.(searchTimeoutSeconds := Pick(AsInt(v), s.searchTimeoutSeconds))
    else s
  }

  function SetBuying(s: BuyingConfig, leaf: string, v: Value): BuyingConfig
  {
    if leaf == "min_profit_margin" then s.(minProfitMargin := Pick(AsReal(v), s.minProfitMargin))
    else if leaf == "max_purchases_per_cycle" then s.(maxPurchasesPerCycle := Pick(AsInt(v), s.maxPurchasesPerCycle))
    else if leaf == "diversification_enabled" then s.(diversificationEnabled := Pick(AsBool(v), s.diversificationEnabled))
    else if leaf == "priority_items" then s.(priorityItems := if v.PrioritiesValue? then v.m else s.priorityItems)
    else if leaf == "price_analysis_samples" then s.(priceAnalysisSamples := Pick(AsInt(v), s.priceAnalysisSamples))
    else s
  }

  function SetSelling(s: SellingConfig, leaf: string, v: Value): SellingConfig
  {
    if leaf == "markup_percentage" then s.(markupPercentage := Pick(AsReal(v), s.markupPercentage))
    else if leaf == "min_markup_percentage" then s.(minMarkupPercentage := Pick(AsReal(v), s.minMarkupPercentage))
    else if leaf == "max_markup_percentage" then s.(maxMarkupPercentage := Pick(AsReal(v), s.maxMarkupPercentage))
    else if leaf == "max_inventory_slots_used" then s.(maxInventorySlotsUsed := Pick(AsInt(v), s.maxInventorySlotsUsed))
    else if leaf == "inventory_threshold_percentage" then s.(inventoryThresholdPercentage := Pick(AsReal(v), s.inventoryThresholdPercentage))
    else if leaf == "max_selling_slots_used" then s.(maxSellingSlotsUsed := Pick(AsInt(v), s.maxSellingSlotsUsed))
    else if leaf == "selling_slots_threshold_percentage" then s.(sellingSlotsThresholdPercentage := Pick(AsReal(v), s.sellingSlotsThresholdPercentage))
    else if leaf == "price_adjustment_enabled" then s.(priceAdjustmentEnabled := Pick(AsBool(v), s.priceAdjustmentEnabled))
    else s
  }

  function SetRisk(s: RiskManagementConfig, leaf: string, v: Value): RiskManagementConfig
  {
    if leaf == "max_consecutive_failures" then s.(maxConsecutiveFailures := Pick(AsInt(v), s.maxConsecutiveFailures))
    else if leaf == "failure_cooldown_minutes" then s.(failureCooldownMinutes := Pick(AsInt(v), s.failureCooldownMinutes))
    else if leaf == "anti_detection_enabled" then s.(antiDetectionEnabled := Pick(AsBool(v), s.antiDetectionEnabled))
    else if leaf == "random_delay_range" then s.(randomDelayRange := if v.PairValue? then (v.lo, v.hi) else s.randomDelayRange)
    else if leaf == "max_operations_per_hour" then s.(maxOperationsPerHour := Pick(AsInt(v), s.maxOperationsPerHour))
    else s
  }

  function SetPerformance(s: PerformanceConfig, leaf: string, v: Value): PerformanceConfig
  {
    if leaf == "market_cache_duration_minutes" then s.(marketCacheDurationMinutes := Pick(AsInt(v), s.marketCacheDurationMinutes))
    else if leaf == "price_cache_duration_minutes" then s.(priceCacheDurationMinutes := Pick(AsInt(v), s.priceCacheDurationMinutes))
    else if leaf == "operation_timeout_seconds" then s.(operationTimeoutSeconds := Pick(AsInt(v), s.operationTimeoutSeconds))
    else if leaf == "max_retries" then s.(maxRetries := Pick(AsInt(v), s.maxRetries))
    else if leaf == "retry_delay_seconds" then s.(retryDelaySeconds := Pick(AsInt(v), s.retryDelaySeconds))
    else if leaf == "exponential_backoff" then s.(exponentialBackoff := Pick(AsBool(v), s.exponentialBackoff))
    else s
  }

  function SetTopLevel(c: Config, leaf: string, v: Value): Config
  {
    if leaf == "trading_enabled" then c.(tradingEnabled := Pick(AsBool(v), c.tradingEnabled))
    else if leaf == "debug_mode" then c.(debugMode := Pick(AsBool(v), c.debugMode))
    else if leaf == "dry_run_mode" then c.(dryRunMode := Pick(AsBool(v), c.dryRunMode))
    else if leaf == "max_trading_cycles" then c.(maxTradingCycles := Pick(AsInt(v), c.maxTradingCycles))
    else if leaf == "cycle_interval_minutes" then c.(cycleIntervalMinutes := Pick(AsInt(v), c.cycleIntervalMinutes))
    else if leaf == "session_timeout_hours" then c.(sessionTimeoutHours := Pick(AsInt(v), c.sessionTimeoutHours))
    else if leaf == "detailed_logging" then c.(detailedLogging := Pick(AsBool(v), c.detailedLogging))
    else if leaf == "log_all_market_data" then c.(logAllMarketData := Pick(AsBool(v), c.logAllMarketData))
    else c
  }

  predicate IsSection(name: string)
  {
    name in ["market_search", "buying", "selling", "risk_management", "performance"]
  }

  /** The sections `validate_config` reads fields of. */
  predicate ValidatedSectionsPresent(replaced: set<string>)
  {
    "market_search" !in replaced && "buying" !in replaced && "risk_management" !in replaced
  }

  /** What the configuration manager updates: the configuration, and the
      sections a one-part key has replaced with a plain value. Python then
      holds that value where the section was; here the section keeps its
      last fields and its name is recorded, so that a later read or write
      of one of its fields raises as it does in Python. */
  datatype Settings = Settings(config: Config, replaced: set<string>)

  /** Whether `setattr` can carry out a write of `key`, given the sections
      already replaced: a one-part key always can (a section name replaces
      the section); a two-part key only into a section still there and not
      onto a read-only property; any longer path ends in a list, number,
      mapping or flag, or in a missing attribute, and raises. */
  predicate Writable(replaced: set<string>, key: string)
  {
    var keys := Text.Split(key, '.');
    |keys| == 1 || (|keys| == 2 && IsSection(keys[0]) && !IsReadOnlyProperty(keys[0], keys[1]) && keys[0] !in replaced)
  }

  /** The section a key replaces: the key itself when it is one section name. */
  function Replaces(key: string): set<string>
  {
    var keys := Text.Split(key, '.');
    if |keys| == 1 && IsSection(keys[0]) then {keys[0]} else {}
  }

  /** `_set_nested_value`: follow every key but the last with `getattr` and
      set the last with `setattr`. A one-part key names a top-level field
      or replaces a whole section; a two-part key sets a field of a
      section. */
  function SetNestedValue(s: Settings, key: string, v: Value): (r: Option<Settings>)
    ensures r.None? <==> !Writable(s.replaced, key)
    ensures r.Some? ==> r.value.replaced == s.replaced + Replaces(key)
    ensures r.Some? && Replaces(key) != {} ==> r.value.config == s.config
  {
    var keys := Text.Split(key, '.');
    if |keys| == 1 then
      if IsSection(keys[0]) then Some(s.(replaced := s.replaced + {keys[0]}))
      else Some(s.(config := SetTopLevel(s.config, keys[0], v)))
    else if |keys| == 2 && IsSection(keys[0]) && !IsReadOnlyProperty(keys[0], keys[1]) && keys[0] !in s.replaced then
      Some(s.(config := SetInSection(s.config, keys[0], keys[1], v)))
    else None
  }

  /** `setattr` on the field `leaf` of the named section. */
  function SetInSection(c: Config, section: string, leaf: string, v: Value): Config
  {
    if section == "market_search" then c.(marketSearch := SetMarketSearch(c.marketSearch, leaf, v))
    else if section == "buying" then c.(buying := SetBuying(c.buying, leaf, v))
    else if section == "selling" then c.(selling := SetSelling(c.selling, leaf, v))
    else if section == "risk_management" then c.(riskManagement := SetRisk(c.riskManagement, leaf, v))
    else c.(performance := SetPerformance(c.performance, leaf, v))
  }

  /** The sections a run of updates replaces. */
  function ReplacedBy(updates: seq<(string, Value)>): set<string>
  {
    if |updates| == 0 then {} else Replaces(updates[0].0) + ReplacedBy(updates[1..])
  }

  /** Every update can be written, given the sections replaced before it. */
  ghost predicate AllWritable(replaced: set<string>, updates: seq<(string, Value)>)
  {
    forall k :: 0 <= k < |updates| ==> Writable(replaced + ReplacedBy(updates[..k]), updates[k].0)
  }

  /** Applies updates in order and stops at the first one that raises,
      keeping the settings as they stood then; true iff every update was
      applied, and then exactly the sections named by the updates have
      been added to the replaced ones. */
  function ApplyUpdates(s: Settings, updates: seq<(string, Value)>): (r: (Settings, bool))
    ensures r.1 <==> AllWritable(s.replaced, updates)
    ensures r.1 ==> r.0.replaced == s.replaced + ReplacedBy(updates)
  {
    ApplyResolves(s, updates);
    ApplyWith(s, updates, SetNestedValue)
  }

  /** The update loop for a given setter: each update in order, until the
      setter fails. */
  function ApplyWith<S>(s: S, updates: seq<(string, Value)>, setter: (S, string, Value) -> Option<S>): (S, bool)
    decreases |updates|
  {
    if |updates| == 0 then (s, true)
    else match setter(s, updates[0].0, updates[0].1)
      case None => (s, false)
      case Some(next) => ApplyWith(next, updates[1..], setter)
  }

  /** The loop finishes exactly when every update can be written in turn. */
  lemma {:induction false} ApplyResolves(s: Settings, updates: seq<(string, Value)>)
    ensures ApplyWith(s, updates, SetNestedValue).1 <==> AllWritable(s.replaced, updates)
    ensures ApplyWith(s, updates, SetNestedValue).1 ==>
              ApplyWith(s, updates, SetNestedValue).0.replaced == s.replaced + ReplacedBy(updates)
    decreases |updates|
  {
    if |updates| > 0 {
      AllWritableCons(s.replaced, updates);
      var step := SetNestedValue(s, updates[0].0, updates[0].1);
      if step.Some? {
        ApplyResolves(step.value, updates[1..]);
      }
    }
  }

  /** All updates can be written exactly when the first can and the rest
      can after it. */
  lemma AllWritableCons(replaced: set<string>, updates: seq<(string, Value)>)
    requires |updates| > 0
    ensures AllWritable(replaced, updates)
            <==> Writable(replaced, updates[0].0)
                 && AllWritable(replaced + Replaces(updates[0].0), updates[1..])
  {
    if AllWritable(replaced, updates) {
      AllWritableTail(replaced, updates);
    }
    if Writable(replaced, updates[0].0) && AllWritable(replaced + Replaces(updates[0].0), updates[1..]) {
      AllWritableFromTail(replaced, updates);
    }
  }

  /** The sections replaced before update k are those the first update
      replaces plus those replaced before it in the rest. */
  lemma ReplacedBeforeStep(replaced: set<string>, updates: seq<(string, Value)>, k: nat)
    requires 1 <= k <= |updates|
    ensures replaced + ReplacedBy(updates[..k])
         == replaced + Replaces(updates[0].0) + ReplacedBy(updates[1..][..k - 1])
  {
    assert updates[..k][1..] == updates[1..][..k - 1];
    assert updates[..k][0] == updates[0];
  }

  lemma AllWritableTail(replaced: set<string>, updates: seq<(string, Value)>)
    requires |updates| > 0 && AllWritable(replaced, updates)
    ensures Writable(replaced, updates[0].0)
    ensures AllWritable(replaced + Replaces(updates[0].0), updates[1..])
  {
    assert ReplacedBy(updates[..0]) == {};
    assert replaced + {} == replaced;
    assert Writable(replaced + ReplacedBy(updates[..0]), updates[0].0);
    var rest := updates[1..];
    forall k | 0 <= k < |rest|
      ensures Writable(replaced + Replaces(updates[0].0) + ReplacedBy(rest[..k]), rest[k].0)
    {
      ReplacedBeforeStep(replaced, updates, k + 1);
      assert Writable(replaced + ReplacedBy(updates[..k + 1]), updates[k + 1].0);
    }
  }

  lemma AllWritableFromTail(replaced: set<string>, updates: seq<(string, Value)>)
    requires |updates| > 0 && Writable(replaced, updates[0].0)
    requires AllWritable(replaced + Replaces(updates[0].0), updates[1..])
    ensures AllWritable(replaced, updates)
  {
    var rest := updates[1..];
    forall k | 0 <= k < |updates|
      ensures Writable(replaced + ReplacedBy(updates[..k]), updates[k].0)
    {
      if k == 0 {
        assert ReplacedBy(updates[..0]) == {};
        assert replaced + {} == replaced;
      } else {
        ReplacedBeforeStep(replaced, updates, k);
        assert Writable(replaced + Replaces(updates[0].0) + ReplacedBy(rest[..k - 1]), rest[k - 1].0);
      }
    }
  }

  /** No rollback: when an update raises, the updates before it stay applied
      and the ones after it are never applied. */
  lemma ApplyStopsAtFailure(s: Settings, done: seq<(string, Value)>, bad: (string, Value), rest: seq<(string, Value)>)
    requires ApplyUpdates(s, done).1
    requires !Writable(ApplyUpdates(s, done).0.replaced, bad.0)
    ensures ApplyUpdates(s, done + [bad] + rest) == (ApplyUpdates(s, done).0, false)
  {
    ApplyWithStops(s, done, bad, rest, SetNestedValue);
  }

  /** For any setter: once it fails on `bad`, nothing after is applied. */
  lemma {:induction false} ApplyWithStops<S>(s: S, done: seq<(string, Value)>, bad: (string, Value), rest: seq<(string, Value)>,
                                             setter: (S, string, Value) -> Option<S>)
    requires ApplyWith(s, done, setter).1
    requires setter(ApplyWith(s, done, setter).0, bad.0, bad.1).None?
    ensures ApplyWith(s, done + [bad] + rest, setter) == (ApplyWith(s, done, setter).0, false)
    decreases |done|
  {
    var all := done + [bad] + rest;
    if |done| == 0 {
      assert all == [bad] + rest;
    } else {
      var next := setter(s, done[0].0, done[0].1).value;
      assert all[0] == done[0];
      assert all[1..] == done[1..] + [bad] + rest;
      ApplyWithStops(next, done[1..], bad, rest, setter);
    }
  }

  /** `update_config`: load the configuration if none is loaded, apply the
      updates, then validate. Validation reads the market-search, buying
      and risk-management sections, so it raises when one of them was
      replaced. The answer is False on any exception, but the settings keep
      every update applied before it: nothing is rolled back. */
  function UpdateConfig(current: Option<Settings>, loaded: Config, updates: seq<(string, Value)>): (r: (Settings, bool))
    ensures var base := if current.Some? then current.value else Settings(loaded, {});
            r.0 == ApplyUpdates(base, updates).0
    ensures var base := if current.Some? then current.value else Settings(loaded, {});
            r.1 <==> AllWritable(base.replaced, updates) && ValidatedSectionsPresent(r.0.replaced) && WellFormed(r.0.config)
  {
    var base := if current.Some? then current.value else Settings(loaded, {});
    var (applied, ok) := ApplyUpdates(base, updates);
    if !ok then (applied, false)
    else (applied, ValidatedSectionsPresent(applied.replaced) && ValidateConfig(Some(applied.config)) == Valid)
  }

  /** An update that can be written but breaks validation is reported as a
      failure, yet the settings keep it. */
  lemma FailedValidationKeepsUpdate(s: Settings, loaded: Config, key: string, v: Value)
    requires Writable(s.replaced, key)
    requires !WellFormed(SetNestedValue(s, key, v).value.config)
    ensures UpdateConfig(Some(s), loaded, [(key, v)]) == (SetNestedValue(s, key, v).value, false)
  {
    var updates := [(key, v)];
    var next := SetNestedValue(s, key, v).value;
    assert updates[1..] == [];
    assert ApplyUpdates(s, updates) == ApplyWith(next, [], SetNestedValue) == (next, true);
  }

  /** A section name is a key of one part. */
  lemma SectionKeySplits(section: string)
    requires IsSection(section)
    ensures Text.Split(section, '.') == [section]
  {
    assert '.' !in section;
    Text.SplitJoin([section], '.');
  }

  /** Writing a plain value over a whole section replaces it: the update
      is accepted only when it is the selling or performance section and
      the rest is valid; over the market-search, buying or risk-management
      section validation raises and the answer is False. */
  lemma SectionOverwrite(s: Settings, loaded: Config, section: string, v: Value)
    requires IsSection(section)
    ensures UpdateConfig(Some(s), loaded, [(section, v)])
         == (Settings(s.config, s.replaced + {section}),
             ValidatedSectionsPresent(s.replaced + {section}) && WellFormed(s.config))
  {
    SectionKeySplits(section);
    var updates := [(section, v)];
    var next := Settings(s.config, s.replaced + {section});
    assert SetNestedValue(s, section, v) == Some(next);
    assert updates[1..] == [];
    assert ApplyUpdates(s, updates) == ApplyWith(next, [], SetNestedValue) == (next, true);
  }

  /** Once a section is replaced, a write to one of its fields raises. */
  lemma ReplacedSectionUnwritable(replaced: set<string>, key: string)
    requires |Text.Split(key, '.')| == 2 && Text.Split(key, '.')[0] in replaced
    ensures !Writable(replaced, key)
  {
  }

  /** Writing an out-of-range profit margin into the buying section stores
      it, so validation then fails on the margin rule. */
  lemma MarginUpdateBreaksValidation(c: Config)
    requires WellFormed(c)
    ensures var b := SetBuying(c.buying, "min_profit_margin", RealValue(2.0));
            b.minProfitMargin == 2.0
            && ValidateConfig(Some(c.(buying := b))) == Invalid(MarginOutOfRange)
  {
  }

  /** The margin's dotted key splits into its section and its field. */
  lemma MarginKeySplits()
    ensures Text.Split("buying.min_profit_margin", '.') == ["buying", "min_profit_margin"]
  {
    var parts := ["buying", "min_profit_margin"];
    assert Text.Join(parts, '.') == "buying.min_profit_margin";
    Text.SplitJoin(parts, '.');
  }

  /** The margin's dotted key names a writable field of the buying section
      while that section is there. */
  lemma MarginKeyWritable(replaced: set<string>)
    requires "buying" !in replaced
    ensures Writable(replaced, "buying.min_profit_margin")
  {
    MarginKeySplits();
    MarginNotReadOnly();
  }

  lemma MarginNotReadOnly()
    ensures IsSection("buying") && !IsReadOnlyProperty("buying", "min_profit_margin")
    ensures "buying" != "market_search"
  {
    assert "buying"[1] == 'u' && "market_search"[1] == 'a';
    var leaf := "min_profit_margin";
    assert leaf[1] == 'i';
    assert "max_total_investment"[1] == "max_item_price"[1] == "max_high_risk_purchases"[1] == 'a';
    assert "diversification_limit"[0] == 'd';
  }

  /** `update_config({"buying": 5})` on a valid configuration: the buying
      section is replaced by the number, validation then raises on reading
      the margin, and the answer is False. */
  lemma BuyingOverwriteRejected(c: Config)
    ensures UpdateConfig(Some(Settings(c, {})), c, [("buying", IntValue(5))]) == (Settings(c, {"buying"}), false)
  {
    MarginNotReadOnly();
    var replaced: set<string> := {};
    assert replaced + {"buying"} == {"buying"};
    assert !ValidatedSectionsPresent({"buying"});
    SectionOverwrite(Settings(c, replaced), c, "buying", IntValue(5));
  }

  /** Writing `True` to the margin's key stores a margin of 1. */
  lemma BoolMarginStored(s: Settings)
    requires "buying" !in s.replaced
    ensures SetNestedValue(s, "buying.min_profit_margin", BoolValue(true))
         == Some(s.(config := s.config.(buying := s.config.buying.(minProfitMargin := 1.0))))
  {
    MarginKeySplits();
    MarginNotReadOnly();
    SetBuyingField(s, "buying.min_profit_margin", "min_profit_margin", BoolValue(true));
  }

  /** A two-part key into the buying section writes that section's field. */
  lemma SetBuyingField(s: Settings, key: string, leaf: string, v: Value)
    requires Text.Split(key, '.') == ["buying", leaf] && "buying" !in s.replaced
    requires IsSection("buying") && !IsReadOnlyProperty("buying", leaf) && "buying" != "market_search"
    ensures SetNestedValue(s, key, v) == Some(s.(config := s.config.(buying := SetBuying(s.config.buying, leaf, v))))
  {
  }

  /** Writing `True` as the profit margin stores 1 (Python's `bool` is an
      `int`), which fails the margin rule: the update reports failure and
      the configuration keeps the margin of 1. */
  lemma BoolMarginFailsValidation(s: Settings, loaded: Config)
    requires "buying" !in s.replaced
    ensures var r := UpdateConfig(Some(s), loaded, [("buying.min_profit_margin", BoolValue(true))]);
            !r.1 && r.0.config.buying.minProfitMargin == 1.0
  {
    MarginKeyWritable(s.replaced);
    BoolMarginStored(s);
    FailedValidationKeepsUpdate(s, loaded, "buying.min_profit_margin", BoolValue(true));
  }
}
