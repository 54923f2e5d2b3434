/** The trading states and the resource snapshot of a player: inventory,
    storage and selling slots with their derived "full" and free-space values,
    and the two whole-snapshot predicates `CanTrade` and `IsCompletelyBlocked`. */
module Models {
  import opened Common

  /** The 18 states of the trading workflow. */
  datatype TradingState =
    | Idle
    | Initializing
    | LoginRequired
    | LoggingIn
    | LoginFailed
    | CheckingResources
    | InsufficientFunds
    | WithdrawingFromBank
    | CheckingInventory
    | DepositingToStorage
    | SpaceFull
    | MarketScanning
    | Buying
    | Selling
    | WaitingNormal
    | WaitingBlocked
    | Error
    | CriticalError

  /** The used and maximum counts of a bounded container. The inventory, the
      storage and the selling slots all have this shape; the item-name lists
      they also carry play no part in any decision. */
  datatype Occupancy = Occupancy(used: int, capacity: int)
  {
    /** `is_full`: the used count has reached the capacity. */
    predicate IsFull() { used >= capacity }

    /** `available_space` / `available_slots`: the free count, clamped at 0. */
    function Available(): (n: nat)
      ensures n == 0 <==> IsFull()
      ensures !IsFull() ==> used + n == capacity
      ensures used >= 0 ==> n <= Max(0, capacity)
    {
      Max(0, capacity - used)
    }
  }

  type InventoryStatus = Occupancy
  type StorageStatus = Occupancy
  type SellingSlotsStatus = Occupancy

  /** The complete resource snapshot of a player. */
  datatype PlayerResources = PlayerResources(
    cashOnHand: int,
    bankBalance: int,
    inventory: InventoryStatus,
    storage: StorageStatus,
    sellingSlots: SellingSlotsStatus)
  {
    /** `total_available_cash`: money on hand plus money in the bank. */
    function TotalAvailableCash(): (t: int)
      ensures t - bankBalance == cashOnHand
    {
      cashOnHand + bankBalance
    }

    /** The player has some money and somewhere to put a purchase. */
    function CanTrade(): (b: bool)
      ensures b ==> inventory.Available() > 0
      ensures b <==> cashOnHand + bankBalance > 0 && inventory.used < inventory.capacity
    {
      TotalAvailableCash() > 0 && !inventory.IsFull()
    }

    /** No money at all and every container full: nothing can be bought,
        stored or listed. */
    function IsCompletelyBlocked(): (b: bool)
      ensures b ==> !CanTrade()
      ensures b <==> cashOnHand + bankBalance == 0
                     && inventory.Available() == 0
                     && storage.Available() == 0
                     && sellingSlots.Available() == 0
    {
      TotalAvailableCash() == 0 && inventory.IsFull() && storage.IsFull() && sellingSlots.IsFull()
    }
  }

  /** The two snapshots of the infrastructure tests: a roomy one that can trade
      and a saturated one that is completely blocked. */
  lemma SnapshotExamples()
    ensures var roomy := PlayerResources(5000, 10000, Occupancy(5, 10), Occupancy(20, 50), Occupancy(10, 30));
            roomy.CanTrade() && roomy.TotalAvailableCash() == 15000 && !roomy.IsCompletelyBlocked()
    ensures var full := PlayerResources(0, 0, Occupancy(10, 10), Occupancy(50, 50), Occupancy(30, 30));
            !full.CanTrade() && full.IsCompletelyBlocked()
  {
  }

  /** The snapshot the trading engine assembles at the start of a cycle. The
      total is stored, not derived: the engine fills it in when it builds the
      snapshot and rewrites it after buying and after a bank withdrawal. */
  datatype SystemResources = SystemResources(
    currentCash: real,
    bankBalance: real,
    totalFunds: real,
    inventory: Occupancy,
    storage: Occupancy,
    sellingSlots: Occupancy)
  {
    function InventorySpaceAvailable(): nat { inventory.Available() }

    function StorageSpaceAvailable(): nat { storage.Available() }

    /** The engine snapshot's `is_completely_blocked`: no money on hand or
        in the bank, and inventory, storage and selling slots all full. */
    predicate IsSystemBlocked()
    {
      currentCash == 0.0 && bankBalance == 0.0 && inventory.IsFull() && storage.IsFull() && sellingSlots.IsFull()
    }
  }

  /** The snapshot as first built from the five reads: the total is the sum. */
  function MakeSystemResources(cash: real, bank: real, inventory: Occupancy, storage: Occupancy, slots: Occupancy): (r: SystemResources)
    ensures r.totalFunds - r.bankBalance == r.currentCash == cash
    ensures r.bankBalance == bank
    ensures r.inventory == inventory && r.storage == storage && r.sellingSlots == slots
  {
    SystemResources(cash, bank, cash + bank, inventory, storage, slots)
  }

  /** The engine's snapshot and the player snapshot built from the same
      reads hold the same total, and the player snapshot can trade exactly
      when that total is positive and the inventory has room. */
  lemma SnapshotTotalsAgree(cash: int, bank: int, inventory: Occupancy, storage: Occupancy, slots: Occupancy)
    ensures var player := PlayerResources(cash, bank, inventory, storage, slots);
            MakeSystemResources(cash as real, bank as real, inventory, storage, slots).totalFunds
              == player.TotalAvailableCash() as real
    ensures var player := PlayerResources(cash, bank, inventory, storage, slots);
            player.CanTrade() <==>
              (MakeSystemResources(cash as real, bank as real, inventory, storage, slots).totalFunds > 0.0
               && inventory.Available() > 0)
  {
  }

  /** For non-negative money the engine's blocked test and the player
      snapshot's blocked test agree. */
  lemma BlockedTestsAgree(cash: int, bank: int, inventory: Occupancy, storage: Occupancy, slots: Occupancy)
    requires cash >= 0 && bank >= 0
    ensures MakeSystemResources(cash as real, bank as real, inventory, storage, slots).IsSystemBlocked()
            <==> PlayerResources(cash, bank, inventory, storage, slots).IsCompletelyBlocked()
  {
  }

  /** A market listing as read from the marketplace: `price` is per unit. */
  datatype MarketItem = MarketItem(name: string, seller: string, price: real, quantity: int)
  {
    /** Price of the whole listing. */
    function Cost(): real { price * quantity as real }
  }

  /** The three-step scale used for risk and for market activity. */
  datatype Level = Low | Medium | High

  /** A listing judged worth buying, with the figures that ranked it. */
  datatype PurchaseOpportunity = PurchaseOpportunity(
    item: MarketItem,
    profitPotential: real,
    priorityScore: real,
    estimatedSellPrice: real,
    risk: Level)

  /** The summary of one market evaluation. */
  datatype MarketCondition = MarketCondition(
    totalItemsScanned: nat,
    valuableOpportunities: nat,
    averageProfitMargin: real,
    activity: Level)

  /** An item held in the inventory. */
  datatype InventoryItemData = InventoryItemData(name: string, quantity: int)

  /** A planned listing: the item, its unit price, its ranking value and,
      once planned, the 1-based selling slot it goes to. */
  datatype SellOrder = SellOrder(
    item: InventoryItemData,
    sellingPrice: real,
    priorityScore: real,
    slotPosition: Option<int>)
}
