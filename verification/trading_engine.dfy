/** The trading engine: one trading cycle as a fixed sequence of phases
    (login check, resource check, space management, market analysis, buying,
    selling), the handling of a failed cycle and the wait between cycles.
    Every call into the game (login, page reads, bank withdrawal, storage
    deposit, market scans, purchases, listings) is an input; the states the
    engine sets are recorded in order and applied to its state machine. */
module TradingEngine {
  import opened Common
  import opened Text
  import opened Models
  import opened StateMachine
  import opened TradingConfig
  import opened BuyingStrategy
  import opened SellingStrategy

  /** `session_stats`. The profit total is declared but never updated. */
  datatype SessionStats = SessionStats(
    totalPurchases: nat,
    totalSales: nat,
    totalProfit: real,
    successfulCycles: nat,
    failedCycles: nat)

  /** The error counters of the current trading session. */
  datatype TradingSession = TradingSession(loginFailures: nat, networkErrors: nat, businessErrors: nat)

  datatype Engine = Engine(
    machine: Machine,
    stats: SessionStats,
    consecutiveErrors: nat,
    session: TradingSession,
    purchaseHistory: seq<PurchaseOpportunity>,
    saleHistory: seq<SellOrder>)

  /** A new engine with a session just started: all counters zero. */
  function NewEngine(now: real): (e: Engine)
    ensures e.stats == SessionStats(0, 0, 0.0, 0, 0) && e.consecutiveErrors == 0
    ensures e.session == TradingSession(0, 0, 0) && e.purchaseHistory == [] && e.saleHistory == []
    ensures e.machine.current == Idle && e.machine.history == []
  {
    Engine(Init(now), SessionStats(0, 0, 0.0, 0, 0), 0, TradingSession(0, 0, 0), [], [])
  }

  /** The engine sets states with `set_state`, which ignores the transition
      table; this applies a run of them in order. */
  function ApplyStates(m: Machine, states: seq<TradingState>, now: real): (r: Machine)
    ensures |states| == 0 ==> r == m
    ensures |states| > 0 ==> r.current == states[|states| - 1]
    ensures |r.history| == |m.history| + |states|
    ensures forall k :: 0 <= k < |states| ==> r.history[|m.history| + k].to == states[k]
  {
    if |states| == 0 then m
    else
      var before := ApplyStates(m, states[..|states| - 1], now);
      SetState(before, states[|states| - 1], now)
  }

  // ---------------------------------------------------------------------
  // Login check

  datatype LoginOutcome = LoginOutcome(ok: bool, failures: nat, calls: nat, trace: seq<TradingState>)

  /** `_execute_login_check`: enter LOGIN_REQUIRED and try the smart login
      (`smartLogin(k)` is the result of the k-th call); on failure count it
      and, while the session's failures stay under the limit, try again;
      otherwise enter LOGIN_FAILED. The session's failure count is never
      reset by a success. */
  function LoginCheck(failures: nat, maxRetries: int, smartLogin: nat -> bool, attempt: nat): (r: LoginOutcome)
    ensures 1 <= r.calls <= Max(1, maxRetries - failures)
    ensures r.ok <==> smartLogin(attempt + r.calls - 1)
    ensures forall k :: attempt <= k < attempt + r.calls - 1 ==> !smartLogin(k)
    ensures r.ok ==> r.failures == failures + r.calls - 1
    ensures !r.ok ==> r.failures == Max(failures + 1, maxRetries)
    ensures |r.trace| == r.calls + (if r.ok then 0 else 1)
    ensures forall k :: 0 <= k < r.calls ==> r.trace[k] == LoginRequired
    ensures forall s | s in r.trace :: s == LoginRequired || s == LoginFailed
    ensures !r.ok ==> r.trace[|r.trace| - 1] == LoginFailed
    decreases Max(0, maxRetries - failures)
  {
    if smartLogin(attempt) then LoginOutcome(true, failures, 1, [LoginRequired])
    else if failures + 1 < maxRetries then
      var rest := LoginCheck(failures + 1, maxRetries, smartLogin, attempt + 1);
      LoginOutcome(rest.ok, rest.failures, rest.calls + 1, [LoginRequired] + rest.trace)
    else LoginOutcome(false, failures + 1, 1, [LoginRequired, LoginFailed])
  }

  // ---------------------------------------------------------------------
  // Resource check

  /** The five reads of the resource check; `None` where the read came back
      empty. */
  datatype ResourceReads = ResourceReads(
    cash: Option<real>,
    bank: Option<real>,
    inventory: Occupancy,
    storage: Occupancy,
    slots: Option<Occupancy>)

  /** The cash and bank reads taken again after a withdrawal. */
  datatype AfterWithdraw = AfterWithdraw(cash: Option<real>, bank: Option<real>)

  /** Cash on hand below which the engine empties the bank. */
  const CashFloor: real := 10000.0

  /** Withdraw everything when cash is under the floor and the bank holds money. */
  predicate NeedsWithdrawal(cash: real, bank: real)
  {
    cash < CashFloor && bank > 0.0
  }

  /** `_execute_resource_check` as written: it reads `current_count` and
      `max_capacity` from the inventory and storage reads, but those come
      back as dictionaries keyed `used` and `total`. The attribute error is
      caught and the check reports no resources, whatever the reads. */
  function ResourceCheckAsWritten(sample: ResourceReads): (r: Option<SystemResources>)
    ensures r.None?
  {
    None
  }

  /** The withdrawal step as written: after emptying the bank only the cash is
      read again, and the total adds it to the bank balance read before the
      withdrawal. */
  function WithdrawStepAsWritten(res: SystemResources, after: AfterWithdraw): (r: Option<SystemResources>)
    ensures !NeedsWithdrawal(res.currentCash, res.bankBalance) ==> r == Some(res)
    ensures NeedsWithdrawal(res.currentCash, res.bankBalance) && after.cash.Some? ==>
              r == Some(res.(currentCash := after.cash.value, totalFunds := after.cash.value + res.bankBalance))
  {
    if !NeedsWithdrawal(res.currentCash, res.bankBalance) then Some(res)
    else match after.cash
      case None => None
      case Some(cash) => Some(res.(currentCash := cash, totalFunds := cash + res.bankBalance))
  }

  /** With 0 cash and 5000 in the bank, a full withdrawal leaves 5000 cash
      and an empty bank, yet the snapshot reports 10000 of funds: the money
      is counted twice. */
  lemma StaleBankDoubleCountsAsWritten(inventory: Occupancy, storage: Occupancy, slots: Occupancy)
    ensures var res := MakeSystemResources(0.0, 5000.0, inventory, storage, slots);
            var after := AfterWithdraw(Some(5000.0), Some(0.0));
            WithdrawStepAsWritten(res, after) == Some(res.(currentCash := 5000.0, totalFunds := 10000.0))
            && after.cash.value + after.bank.value == 5000.0
  {
  }

  /** The withdrawal step with both balances read again, so the total is
      what the player actually has. */
  function WithdrawStep(res: SystemResources, after: AfterWithdraw): (r: Option<SystemResources>)
    ensures !NeedsWithdrawal(res.currentCash, res.bankBalance) ==> r == Some(res)
    ensures NeedsWithdrawal(res.currentCash, res.bankBalance) ==>
              (r.Some? <==> after.cash.Some? && after.bank.Some?)
    ensures NeedsWithdrawal(res.currentCash, res.bankBalance) && r.Some? ==>
              r.value.currentCash == after.cash.value && r.value.bankBalance == after.bank.value
              && r.value.totalFunds == after.cash.value + after.bank.value
    ensures r.Some? ==> r.value.inventory == res.inventory && r.value.storage == res.storage
                        && r.value.sellingSlots == res.sellingSlots
  {
    if !NeedsWithdrawal(res.currentCash, res.bankBalance) then Some(res)
    else if after.cash.None? || after.bank.None? then None
    else Some(res.(currentCash := after.cash.value, bankBalance := after.bank.value,
                   totalFunds := after.cash.value + after.bank.value))
  }

  /** `_execute_resource_check` with the container reads taken from the
      dictionaries the inventory manager returns: no snapshot if a money or
      slot read is empty; otherwise the snapshot, after a full bank
      withdrawal exactly when cash is under 10000 and the bank is not empty.
      The check always enters CHECKING_RESOURCES. */
  function ResourceCheck(sample: ResourceReads, after: AfterWithdraw): (r: Option<SystemResources>)
    ensures sample.cash.None? || sample.bank.None? || sample.slots.None? ==> r.None?
    ensures r.Some? ==> r.value.totalFunds == r.value.currentCash + r.value.bankBalance
    ensures r.Some? ==> r.value.inventory == sample.inventory && r.value.storage == sample.storage
                        && r.value.sellingSlots == sample.slots.value
    ensures sample.cash.Some? && sample.bank.Some? && sample.slots.Some?
            && !NeedsWithdrawal(sample.cash.value, sample.bank.value) ==>
              r == Some(MakeSystemResources(sample.cash.value, sample.bank.value, sample.inventory, sample.storage, sample.slots.value))
    ensures sample.cash.Some? && sample.bank.Some? && sample.slots.Some?
            && NeedsWithdrawal(sample.cash.value, sample.bank.value) ==>
              (r.Some? <==> after.cash.Some? && after.bank.Some?)
              && (r.Some? ==> r.value.currentCash == after.cash.value && r.value.bankBalance == after.bank.value)
  {
    if sample.cash.None? || sample.bank.None? || sample.slots.None? then None
    else
      WithdrawStep(MakeSystemResources(sample.cash.value, sample.bank.value, sample.inventory, sample.storage, sample.slots.value), after)
  }

  // ---------------------------------------------------------------------
  // Space management

  /** The states space management can enter. */
  predicate SpaceState(s: TradingState)
  {
    s == CheckingInventory || s == DepositingToStorage || s == SpaceFull || s == CheckingResources
  }

  datatype DepositReply = Deposited | DepositFailed | DepositRaised

  datatype SpaceOutcome = SpaceOutcome(ok: bool, resources: SystemResources, trace: seq<TradingState>)

  /** Free inventory slots below which the engine moves items to storage. */
  const InventoryLowWater: nat := 10

  /** `_execute_space_management`: with fewer than 10 free inventory slots,
      deposit everything when storage has room (and take the inventory and
      storage counts from a fresh resource check after a successful deposit),
      or enter SPACE_FULL when it has none. Only an error raised by the
      deposit makes the phase report failure. */
  function SpaceManagement(res: SystemResources, deposit: DepositReply, recheck: Option<SystemResources>): (r: SpaceOutcome)
    ensures |r.trace| > 0 && r.trace[0] == CheckingInventory
    ensures forall s | s in r.trace :: SpaceState(s)
    ensures DepositingToStorage in r.trace <==>
              res.InventorySpaceAvailable() < InventoryLowWater && res.StorageSpaceAvailable() > 0
    ensures SpaceFull in r.trace <==>
              res.InventorySpaceAvailable() < InventoryLowWater && res.StorageSpaceAvailable() == 0
    ensures !r.ok <==> DepositingToStorage in r.trace && deposit == DepositRaised
    ensures MarketScanning !in r.trace && Buying !in r.trace && Selling !in r.trace
    ensures r.resources.currentCash == res.currentCash && r.resources.bankBalance == res.bankBalance
            && r.resources.totalFunds == res.totalFunds
            && r.resources.inventory.capacity == res.inventory.capacity
            && r.resources.storage.capacity == res.storage.capacity
            && r.resources.sellingSlots == res.sellingSlots
    ensures r.resources != res ==> DepositingToStorage in r.trace && deposit == Deposited && recheck.Some?
  {
    if res.InventorySpaceAvailable() >= InventoryLowWater then SpaceOutcome(true, res, [CheckingInventory])
    else if res.StorageSpaceAvailable() == 0 then SpaceOutcome(true, res, [CheckingInventory, SpaceFull])
    else
      match deposit
      case DepositRaised => SpaceOutcome(false, res, [CheckingInventory, DepositingToStorage])
      case DepositFailed => SpaceOutcome(true, res, [CheckingInventory, DepositingToStorage])
      case Deposited =>
        match recheck
        case None => SpaceOutcome(true, res, [CheckingInventory, DepositingToStorage, CheckingResources])
        case Some(u) =>
          var updated := res.(inventory := res.inventory.(used := u.inventory.used),
                              storage := res.storage.(used := u.storage.used));
          SpaceOutcome(true, updated, [CheckingInventory, DepositingToStorage, CheckingResources])
  }

  // ---------------------------------------------------------------------
  // Buying phase

  /** What `execute_purchase` gave back: its result dictionary, whose
      `success` entry says whether the purchase went through, or an error. */
  datatype PurchaseReply = PurchaseReply(success: bool) | PurchaseRaised

  /** At most this many opportunities are tried per buying phase. */
  const MaxPurchasesPerPhase: nat := 5

  /** Free inventory slots at or below which buying stops after a purchase. */
  const BuyingLowWater: nat := 5

  /** As written the engine tests the returned dictionary itself, which is
      never empty, so any reply that is not an error counts as a purchase. */
  predicate CountsAsWritten(reply: PurchaseReply) { reply.PurchaseReply? }

  /** A purchase counts when its reply reports success. */
  predicate Succeeded(reply: PurchaseReply) { reply.PurchaseReply? && reply.success }

  datatype BuyState = BuyState(resources: SystemResources, bought: seq<PurchaseOpportunity>, attempts: nat)

  /** The opportunities among `todo` whose replies count, in order. */
  function CountedOf(todo: seq<PurchaseOpportunity>, k: nat, replies: nat -> PurchaseReply,
                     counts: PurchaseReply -> bool): seq<PurchaseOpportunity>
  {
    if |todo| == 0 then []
    else (if counts(replies(k)) then [todo[0]] else []) + CountedOf(todo[1..], k + 1, replies, counts)
  }

  /** The purchase loop of `_execute_buying_phase`: each counted purchase is
      recorded, its listing cost comes off the cash, and the total is
      recomputed; after a counted purchase the loop stops when the snapshot
      shows at most 5 free inventory slots. The snapshot's inventory is not
      updated by purchases. */
  function BuyLoop(res: SystemResources, todo: seq<PurchaseOpportunity>, k: nat,
                   replies: nat -> PurchaseReply, counts: PurchaseReply -> bool): (r: BuyState)
    ensures r.attempts <= |todo|
    ensures |todo| > 0 ==> r.attempts > 0
    ensures r.bought == CountedOf(todo[..r.attempts], k, replies, counts)
    ensures res.InventorySpaceAvailable() > BuyingLowWater ==> r.attempts == |todo|
    ensures res.InventorySpaceAvailable() <= BuyingLowWater ==> |r.bought| <= 1
    ensures r.resources.currentCash == res.currentCash - SumOf(r.bought, OpportunityCost)
    ensures |r.bought| > 0 ==> r.resources.totalFunds == r.resources.currentCash + res.bankBalance
    ensures |r.bought| == 0 ==> r.resources == res
    ensures r.resources.bankBalance == res.bankBalance && r.resources.inventory == res.inventory
            && r.resources.storage == res.storage && r.resources.sellingSlots == res.sellingSlots
    decreases |todo|
  {
    if |todo| == 0 then BuyState(res, [], 0)
    else
      var o := todo[0];
      if counts(replies(k)) then
        var cash := res.currentCash - o.item.Cost();
        var paid := res.(currentCash := cash, totalFunds := cash + res.bankBalance);
        if paid.InventorySpaceAvailable() <= BuyingLowWater then
          assert todo[..1] == [o];
          assert CountedOf(todo[..1][1..], k + 1, replies, counts) == [];
          BuyState(paid, [o], 1)
        else
          var rest := BuyLoop(paid, todo[1..], k + 1, replies, counts);
          assert todo[..rest.attempts + 1][1..] == todo[1..][..rest.attempts];
          BuyState(rest.resources, [o] + rest.bought, rest.attempts + 1)
      else
        var rest := BuyLoop(res, todo[1..], k + 1, replies, counts);
        assert todo[..rest.attempts + 1][1..] == todo[1..][..rest.attempts];
        BuyState(rest.resources, rest.bought, rest.attempts + 1)
  }

  /** `_execute_buying_phase` after its market scan and evaluation: enter
      BUYING, then try at most the first five opportunities. */
  function BuyingPhase(res: SystemResources, opportunities: seq<PurchaseOpportunity>,
                       replies: nat -> PurchaseReply, counts: PurchaseReply -> bool): (r: BuyState)
    ensures r.attempts <= MaxPurchasesPerPhase && r.attempts <= |opportunities|
    ensures |r.bought| <= r.attempts
    ensures forall o | o in r.bought :: o in opportunities
    ensures r.bought == CountedOf(opportunities[..r.attempts], 0, replies, counts)
    ensures r.resources.currentCash == res.currentCash - SumOf(r.bought, OpportunityCost)
  {
    var todo := PyPrefix(opportunities, MaxPurchasesPerPhase);
    var r := BuyLoop(res, todo, 0, replies, counts);
    assert todo[..r.attempts] == opportunities[..r.attempts];
    CountedOfBounds(opportunities[..r.attempts], 0, replies, counts);
    r
  }

  lemma {:induction false} CountedOfBounds(todo: seq<PurchaseOpportunity>, k: nat, replies: nat -> PurchaseReply,
                                          counts: PurchaseReply -> bool)
    ensures |CountedOf(todo, k, replies, counts)| <= |todo|
    ensures forall o | o in CountedOf(todo, k, replies, counts) :: o in todo
  {
    if |todo| > 0 {
      CountedOfBounds(todo[1..], k + 1, replies, counts);
    }
  }

  /** As written, a first purchase whose reply reports failure is still
      recorded as bought and paid for, while the corrected test skips it. */
  lemma FailedPurchaseCountedAsWritten(res: SystemResources, opportunities: seq<PurchaseOpportunity>,
                                       replies: nat -> PurchaseReply)
    requires |opportunities| > 0 && replies(0) == PurchaseReply(false)
    ensures var r := BuyingPhase(res, opportunities, replies, CountsAsWritten);
            r.attempts > 0 && |r.bought| > 0 && r.bought[0] == opportunities[0]
    ensures var r := BuyingPhase(res, opportunities, replies, Succeeded);
            r.attempts > 0 && r.bought == CountedOf(opportunities[1..r.attempts], 1, replies, Succeeded)
  {
    var todo := PyPrefix(opportunities, MaxPurchasesPerPhase);
    var r := BuyLoop(res, todo, 0, replies, CountsAsWritten);
    assert todo[0] == opportunities[0];
    var c := BuyingPhase(res, opportunities, replies, Succeeded);
    assert opportunities[..c.attempts][1..] == opportunities[1..c.attempts];
  }

  // ---------------------------------------------------------------------
  // Selling phase

  datatype SellOutcome = SellOutcome(orders: seq<SellOrder>, sold: seq<SellOrder>)

  /** The orders among `orders` whose listing succeeded (`listed(k)` is the
      result of the k-th listing call). */
  function ListedOf(orders: seq<SellOrder>, k: nat, listed: nat -> bool): (r: seq<SellOrder>)
    ensures |r| <= |orders|
    ensures forall o | o in r :: o in orders
  {
    if |orders| == 0 then []
    else (if listed(k) then [orders[0]] else []) + ListedOf(orders[1..], k + 1, listed)
  }

  /** `_execute_selling_phase`: enter SELLING; nothing to do without
      inventory, without a slot read or without a free slot; otherwise list
      every planned order and record those that were listed. */
  function SellingPhase(cfg: Config, items: seq<InventoryItemData>, slots: Option<Occupancy>,
                        peak: PeakHours, listed: nat -> bool): (r: SellOutcome)
    ensures |items| == 0 || slots.None? || slots.value.Available() == 0 ==> r.orders == [] && r.sold == []
    ensures |items| > 0 && slots.Some? && slots.value.Available() > 0 ==>
              r.orders == PlanSellingStrategy(cfg, items, slots.value, peak)
    ensures r.sold == ListedOf(r.orders, 0, listed)
    ensures slots.Some? ==> |r.sold| <= slots.value.Available()
  {
    if |items| == 0 || slots.None? || slots.value.Available() == 0 then SellOutcome([], [])
    else
      var orders := PlanSellingStrategy(cfg, items, slots.value, peak);
      SellOutcome(orders, ListedOf(orders, 0, listed))
  }

  // ---------------------------------------------------------------------
  // One trading cycle

  /** Everything the game answers during one cycle. */
  datatype CycleInputs = CycleInputs(
    smartLogin: nat -> bool,
    sample: ResourceReads,
    afterWithdraw: AfterWithdraw,
    deposit: DepositReply,
    recheck: Option<SystemResources>,
    analysisScan: Option<seq<MarketItem>>,
    buyingScan: seq<MarketItem>,
    purchaseReplies: nat -> PurchaseReply,
    inventoryItems: seq<InventoryItemData>,
    sellingSlots: Option<Occupancy>,
    listed: nat -> bool,
    peak: PeakHours)

  datatype Phase = LoginPhase | ResourcePhase | SpacePhase | AnalysisPhase | BuyingPhaseRun | SellingPhaseRun

  datatype CycleResult = CycleResult(
    ok: bool,
    engine: Engine,
    trace: seq<TradingState>,
    phases: seq<Phase>,
    condition: Option<MarketCondition>)

  /** The phases that can fail a cycle, in the order they run. */
  const Preamble: seq<Phase> := [LoginPhase, ResourcePhase, SpacePhase, AnalysisPhase]

  /** The phases a cycle runs when none fails. */
  function FullCycle(buys: bool): seq<Phase>
  {
    Preamble + (if buys then [BuyingPhaseRun] else []) + [SellingPhaseRun]
  }

  /** A state set before the trading phases proper. */
  predicate Preparatory(s: TradingState)
  {
    s != Buying && s != Selling
  }

  /** A cycle that stops at a failed phase: only the session and the state
      machine have moved. */
  function Abort(e: Engine, session: TradingSession, trace: seq<TradingState>, phases: seq<Phase>, now: real): (r: CycleResult)
    requires forall s | s in trace :: Preparatory(s)
    requires 0 < |phases| <= 4 && phases == Preamble[..|phases|]
    ensures !r.ok && r.trace == trace && r.phases == phases && r.condition.None?
    ensures 0 < |r.phases| <= 4 && r.phases == Preamble[..|r.phases|]
    ensures r.engine.machine == ApplyStates(e.machine, trace, now)
    ensures r.engine.stats == e.stats && r.engine.consecutiveErrors == e.consecutiveErrors
            && r.engine.purchaseHistory == e.purchaseHistory && r.engine.saleHistory == e.saleHistory
    ensures Selling !in r.trace && Buying !in r.trace
  {
    assert !Preparatory(Selling) && !Preparatory(Buying);
    CycleResult(false, e.(machine := ApplyStates(e.machine, trace, now), session := session), trace, phases, None)
  }

  datatype Trading = Trading(condition: MarketCondition, stats: SessionStats,
                             purchaseHistory: seq<PurchaseOpportunity>, saleHistory: seq<SellOrder>)

  /** The analysis, buying and selling phases of a cycle whose earlier
      phases succeeded: buying only with a valuable opportunity in sight, at
      most five purchases, and the cycle counted as successful whatever
      buying and selling achieved. */
  method TradingPhases(e: Engine, cfg: Config, res: SystemResources, scan: seq<MarketItem>, inputs: CycleInputs)
    returns (t: Trading)
    ensures t.condition.valuableOpportunities == 0 ==> t.stats.totalPurchases == e.stats.totalPurchases
                                                       && t.purchaseHistory == e.purchaseHistory
    ensures e.stats.totalPurchases <= t.stats.totalPurchases <= e.stats.totalPurchases + MaxPurchasesPerPhase
    ensures t.stats.successfulCycles == e.stats.successfulCycles + 1
    ensures t.stats.failedCycles == e.stats.failedCycles && t.stats.totalProfit == e.stats.totalProfit
    ensures inputs.sellingSlots.Some? ==>
              e.stats.totalSales <= t.stats.totalSales <= e.stats.totalSales + inputs.sellingSlots.value.Available()
  {
    var analysed := EvaluateMarketItems(cfg, scan, res.totalFunds);
    var condition := GetMarketConditionAssessment(analysed);
    var purchases := e.purchaseHistory;
    var purchased := 0;
    if condition.valuableOpportunities > 0 {
      var opportunities := EvaluateMarketItems(cfg, inputs.buyingScan, res.totalFunds);
      var bought := BuyingPhase(res, opportunities, inputs.purchaseReplies, Succeeded);
      purchased := |bought.bought|;
      purchases := AppendAllBounded(purchases, bought.bought, HistoryLimit);
    }
    var selling := SellingPhase(cfg, inputs.inventoryItems, inputs.sellingSlots, inputs.peak, inputs.listed);
    var stats := e.stats.(totalPurchases := e.stats.totalPurchases + purchased,
                          totalSales := e.stats.totalSales + |selling.sold|,
                          successfulCycles := e.stats.successfulCycles + 1);
    t := Trading(condition, stats, purchases, AppendAllBounded(e.saleHistory, selling.sold, HistoryLimit));
  }

  datatype Preparation = Preparation(
    resources: Option<SystemResources>,
    session: TradingSession,
    trace: seq<TradingState>,
    phases: seq<Phase>)

  /** The login, resource, space and analysis phases of a cycle, stopping
      at the first that fails; `resources` is the snapshot the trading
      phases work from when all four succeed. */
  function Prepare(e: Engine, maxLoginRetries: int, inputs: CycleInputs): (p: Preparation)
    ensures |p.trace| > 0 && p.trace[0] == LoginRequired
    ensures forall s | s in p.trace :: Preparatory(s)
    ensures 0 < |p.phases| <= 4 && p.phases == Preamble[..|p.phases|]
    ensures p.resources.Some? ==> p.phases == Preamble && inputs.analysisScan.Some?
    ensures p.resources.Some? <==>
              LoginCheck(e.session.loginFailures, maxLoginRetries, inputs.smartLogin, 0).ok
              && ResourceCheck(inputs.sample, inputs.afterWithdraw).Some?
              && SpaceManagement(ResourceCheck(inputs.sample, inputs.afterWithdraw).value, inputs.deposit, inputs.recheck).ok
              && inputs.analysisScan.Some?
    ensures p.session == e.session.(loginFailures := LoginCheck(e.session.loginFailures, maxLoginRetries, inputs.smartLogin, 0).failures)
  {
    var login := LoginCheck(e.session.loginFailures, maxLoginRetries, inputs.smartLogin, 0);
    var session := e.session.(loginFailures := login.failures);
    if !login.ok then Preparation(None, session, login.trace, Preamble[..1])
    else
      var rest := PrepareResources(session, inputs);
      PreparatoryJoin(login.trace, rest.trace);
      Preparation(rest.resources, session, login.trace + rest.trace, rest.phases)
  }

  /** Both runs hold only preparatory states, so their join does. */
  lemma PreparatoryJoin(a: seq<TradingState>, b: seq<TradingState>)
    requires forall s | s in a :: Preparatory(s)
    requires forall s | s in b :: Preparatory(s)
    ensures forall s | s in a + b :: Preparatory(s)
  {
  }

  /** The resource, space and analysis phases after a successful login. */
  function PrepareResources(session: TradingSession, inputs: CycleInputs): (p: Preparation)
    ensures |p.trace| > 0 && p.trace[0] == CheckingResources
    ensures forall s | s in p.trace :: Preparatory(s)
    ensures 1 < |p.phases| <= 4 && p.phases == Preamble[..|p.phases|]
    ensures p.resources.Some? ==> p.phases == Preamble && inputs.analysisScan.Some?
    ensures p.resources.Some? <==>
              ResourceCheck(inputs.sample, inputs.afterWithdraw).Some?
              && SpaceManagement(ResourceCheck(inputs.sample, inputs.afterWithdraw).value, inputs.deposit, inputs.recheck).ok
              && inputs.analysisScan.Some?
    ensures p.session == session
  {
    var checked := ResourceCheck(inputs.sample, inputs.afterWithdraw);
    if checked.None? then Preparation(None, session, [CheckingResources], Preamble[..2])
    else
      var rest := PrepareSpace(session, checked.value, inputs);
      PreparatoryJoin([CheckingResources], rest.trace);
      Preparation(rest.resources, session, [CheckingResources] + rest.trace, rest.phases)
  }

  /** The space and analysis phases on the resource snapshot. */
  function PrepareSpace(session: TradingSession, res: SystemResources, inputs: CycleInputs): (p: Preparation)
    ensures |p.trace| > 0 && p.trace[0] == CheckingInventory
    ensures forall s | s in p.trace :: Preparatory(s)
    ensures 2 < |p.phases| <= 4 && p.phases == Preamble[..|p.phases|]
    ensures p.resources.Some? ==> p.phases == Preamble && inputs.analysisScan.Some?
    ensures p.resources.Some? <==> SpaceManagement(res, inputs.deposit, inputs.recheck).ok && inputs.analysisScan.Some?
    ensures p.session == session
  {
    var space := SpaceManagement(res, inputs.deposit, inputs.recheck);
    SpacePreparatory(space.trace);
    if !space.ok then Preparation(None, session, space.trace, Preamble[..3])
    else
      var t := space.trace + [MarketScanning];
      PreparatoryJoin(space.trace, [MarketScanning]);
      if inputs.analysisScan.None? then Preparation(None, session, t, Preamble[..4])
      else
        assert Preamble[..4] == Preamble;
        Preparation(Some(space.resources), session, t, Preamble)
  }

  /** Space management only enters preparatory states. */
  lemma SpacePreparatory(trace: seq<TradingState>)
    requires forall s | s in trace :: SpaceState(s)
    ensures forall s | s in trace :: Preparatory(s)
  {
  }

  /** `run_trading_cycle` for a cycle in which no error escapes the phases
      (each phase catches its own). The phases run in order; the login,
      resource, space and analysis phases end the cycle with failure when
      they report one, and then nothing later runs and no statistic moves.
      Buying runs only when the analysis found a valuable opportunity, and
      the outcomes of buying and selling do not affect the result. A
      completed cycle counts as successful and clears the error streak. */
  method RunTradingCycle(e: Engine, cfg: Config, maxLoginRetries: int, inputs: CycleInputs, now: real)
    returns (r: CycleResult)
    ensures r.engine.machine == ApplyStates(e.machine, r.trace, now)
    ensures r.ok ==> r.condition.Some? && r.phases == FullCycle(r.condition.value.valuableOpportunities > 0)
    ensures !r.ok ==> 0 < |r.phases| <= 4 && r.phases == Preamble[..|r.phases|]
    ensures r.ok ==> r.engine.stats.successfulCycles == e.stats.successfulCycles + 1
                     && r.engine.stats.failedCycles == e.stats.failedCycles
                     && r.engine.consecutiveErrors == 0
    ensures r.ok ==> e.stats.totalPurchases <= r.engine.stats.totalPurchases <= e.stats.totalPurchases + MaxPurchasesPerPhase
    ensures !r.ok ==> r.engine.stats == e.stats && r.engine.consecutiveErrors == e.consecutiveErrors
                      && r.engine.purchaseHistory == e.purchaseHistory && r.engine.saleHistory == e.saleHistory
    ensures r.ok <==> Prepare(e, maxLoginRetries, inputs).resources.Some?
    ensures Selling in r.trace <==> r.ok
    ensures Buying in r.trace <==> r.ok && r.condition.value.valuableOpportunities > 0
    ensures |r.trace| > 0 && r.trace[0] == LoginRequired
    ensures r.ok ==> r.trace[|r.trace| - 1] == Selling
  {
    var p := Prepare(e, maxLoginRetries, inputs);
    if p.resources.None? {
      return Abort(e, p.session, p.trace, p.phases, now);
    }
    var t := TradingPhases(e, cfg, p.resources.value, inputs.analysisScan.value, inputs);
    r := CompleteCycle(e, p.session, p.trace, t, now);
  }

  /** The result of a cycle whose preparatory phases all succeeded: the
      buying state when there was something to buy, then the selling state,
      and the error streak cleared. */
  function CompleteCycle(e: Engine, session: TradingSession, pre: seq<TradingState>, t: Trading, now: real): (r: CycleResult)
    requires |pre| > 0 && pre[0] == LoginRequired
    requires forall s | s in pre :: Preparatory(s)
    ensures r.ok && r.condition == Some(t.condition)
    ensures r.phases == FullCycle(t.condition.valuableOpportunities > 0)
    ensures r.engine.machine == ApplyStates(e.machine, r.trace, now)
    ensures r.engine.stats == t.stats && r.engine.consecutiveErrors == 0
    ensures Selling in r.trace
    ensures Buying in r.trace <==> t.condition.valuableOpportunities > 0
    ensures |r.trace| > 0 && r.trace[0] == LoginRequired && r.trace[|r.trace| - 1] == Selling
  {
    var buys := t.condition.valuableOpportunities > 0;
    var trace := pre + (if buys then [Buying] else []) + [Selling];
    assert Buying in trace <==> buys by {
      assert !Preparatory(Buying);
    }
    assert trace[0] == LoginRequired;
    CycleResult(true, Engine(ApplyStates(e.machine, trace, now), t.stats, 0, session, t.purchaseHistory, t.saleHistory),
                trace, FullCycle(buys), Some(t.condition))
  }

  // ---------------------------------------------------------------------
  // Failed cycles and waiting

  /** An error counts as a network error when its text mentions "network"
      or "timeout" in any case. */
  predicate IsNetworkError(message: string)
  {
    Contains(Lower(message), "network") || Contains(Lower(message), "timeout")
  }

  /** Consecutive errors from which the engine escalates. */
  const ErrorEscalationThreshold: nat := 3

  /** Short pause after an error that does not escalate. */
  const ErrorRetryWaitSeconds: nat := 30

  datatype ErrorHandling = ErrorHandling(engine: Engine, trace: seq<TradingState>, sleepSeconds: nat)

  /** `_handle_trading_error`: enter ERROR and classify the error for the
      session; with three or more consecutive errors enter CRITICAL_ERROR and
      wait the blocked interval, otherwise wait 30 seconds. */
  function HandleTradingError(e: Engine, message: string, now: real): (r: ErrorHandling)
    ensures |r.trace| > 0 && r.trace[0] == Error
    ensures r.engine.machine == ApplyStates(e.machine, r.trace, now)
    ensures CriticalError in r.trace <==> e.consecutiveErrors >= ErrorEscalationThreshold
    ensures r.sleepSeconds == (if e.consecutiveErrors >= ErrorEscalationThreshold then BlockedWaitSeconds else ErrorRetryWaitSeconds)
    ensures r.engine.session.networkErrors + r.engine.session.businessErrors
            == e.session.networkErrors + e.session.businessErrors + 1
    ensures r.engine.session.networkErrors == e.session.networkErrors + (if IsNetworkError(message) then 1 else 0)
    ensures r.engine.stats == e.stats && r.engine.consecutiveErrors == e.consecutiveErrors
  {
    var session :=
      if IsNetworkError(message) then e.session.(networkErrors := e.session.networkErrors + 1)
      else e.session.(businessErrors := e.session.businessErrors + 1);
    var trace := if e.consecutiveErrors >= ErrorEscalationThreshold then [Error, CriticalError] else [Error];
    var seconds := if e.consecutiveErrors >= ErrorEscalationThreshold then BlockedWaitSeconds else ErrorRetryWaitSeconds;
    ErrorHandling(e.(machine := ApplyStates(e.machine, trace, now), session := session), trace, seconds)
  }

  /** The error branch of `run_trading_cycle`: an error that escaped the
      phases counts a failed cycle, extends the error streak and is handled.
      Every phase catches its own errors, so in practice almost nothing
      reaches this branch and the streak seldom grows; the model states what
      the branch does when it is reached. */
  function FailCycle(e: Engine, message: string, now: real): (r: ErrorHandling)
    ensures r.engine.stats.failedCycles == e.stats.failedCycles + 1
    ensures r.engine.stats.successfulCycles == e.stats.successfulCycles
    ensures r.engine.consecutiveErrors == e.consecutiveErrors + 1
    ensures CriticalError in r.trace <==> e.consecutiveErrors + 1 >= ErrorEscalationThreshold
  {
    var failed := e.(stats := e.stats.(failedCycles := e.stats.failedCycles + 1),
                     consecutiveErrors := e.consecutiveErrors + 1);
    HandleTradingError(failed, message, now)
  }

  /** Starting from a clean streak, the first two escaped errors wait 30
      seconds and the third escalates to CRITICAL_ERROR. Three errors in a
      row must each escape every phase's own error handling first. */
  lemma ThirdConsecutiveFailureEscalates(e: Engine, m1: string, m2: string, m3: string, t1: real, t2: real, t3: real)
    requires e.consecutiveErrors == 0
    ensures var f1 := FailCycle(e, m1, t1);
            var f2 := FailCycle(f1.engine, m2, t2);
            var f3 := FailCycle(f2.engine, m3, t3);
            CriticalError !in f1.trace && CriticalError !in f2.trace && CriticalError in f3.trace
            && f1.sleepSeconds == ErrorRetryWaitSeconds && f2.sleepSeconds == ErrorRetryWaitSeconds
            && f3.sleepSeconds == BlockedWaitSeconds
            && f3.engine.machine.current == CriticalError
  {
  }

  datatype WaitDecision = WaitDecision(machine: Machine, seconds: nat)

  /** `wait_for_next_cycle`: a completely blocked snapshot waits the long
      blocked interval in WAITING_BLOCKED, any other the normal interval in
      WAITING_NORMAL. */
  function WaitForNextCycle(m: Machine, res: SystemResources, now: real): (r: WaitDecision)
    ensures r.machine.current == WaitingBlocked <==> res.IsSystemBlocked()
    ensures r.machine.current == WaitingNormal <==> !res.IsSystemBlocked()
    ensures r.seconds == (if res.IsSystemBlocked() then BlockedWaitSeconds else NormalWaitSeconds)
    ensures r.seconds > 0 && (res.IsSystemBlocked() ==> r.seconds > NormalWaitSeconds)
    ensures r.machine == SetState(m, r.machine.current, now)
  {
    if res.IsSystemBlocked() then WaitDecision(SetState(m, WaitingBlocked, now), BlockedWaitSeconds)
    else WaitDecision(SetState(m, WaitingNormal, now), NormalWaitSeconds)
  }
}
