/** The per-cycle trade ledger kept by the trading logger: one record per
    cycle holding its transactions, running purchase and sale totals, stage
    durations, resource snapshots and errors. Clock readings are passed in
    as seconds; the log file and JSON output are not modelled. */
module TradingLogger {
  import opened Common

  datatype TransactionKind = Purchase | Sale | Withdrawal | StorageMove

  datatype Transaction = Transaction(kind: TransactionKind, itemName: string, quantity: int,
                                     unitPrice: real, totalPrice: real, success: bool)

  /** The resource figures recorded before and after a cycle. */
  datatype ResourceSnapshot = ResourceSnapshot(cash: real, bank: real, totalFunds: real,
                                               inventoryUsed: int, inventoryTotal: int,
                                               storageUsed: int, storageTotal: int,
                                               slotsUsed: int, slotsTotal: int)

  /** The stages whose durations a cycle record has a field for. */
  const KnownStages: set<string> := {"login", "resource_check", "space_management", "market_analysis", "buying", "selling"}

  datatype CycleRecord = CycleRecord(
    id: string,
    start: real,
    end: Option<real>,
    duration: Option<real>,
    stageDurations: map<string, real>,
    before: Option<ResourceSnapshot>,
    after: Option<ResourceSnapshot>,
    transactions: seq<Transaction>,
    totalPurchases: nat,
    totalSales: nat,
    totalSpent: real,
    totalEarned: real,
    netProfit: real,
    errors: seq<string>,
    success: bool)

  /** The logger: the cycle in progress and the start of the stage in
      progress, if any. */
  datatype Logger = Logger(current: Option<CycleRecord>, stageStart: Option<real>)

  const NewLogger: Logger := Logger(None, None)

  // ---------------------------------------------------------------------
  // The ledger invariant

  predicate IsBoughtItem(t: Transaction) { t.kind == Purchase && t.success }

  predicate IsSoldItem(t: Transaction) { t.kind == Sale && t.success }

  function SpentOn(t: Transaction): real { if IsBoughtItem(t) then t.totalPrice else 0.0 }

  function EarnedBy(t: Transaction): real { if IsSoldItem(t) then t.totalPrice else 0.0 }

  /** The running totals are those of the successful purchases and sales
      among the transactions, and only stage fields the record has are
      filled. */
  predicate Consistent(c: CycleRecord)
  {
    && c.totalPurchases == CountWhere(c.transactions, IsBoughtItem)
    && c.totalSpent == SumOf(c.transactions, SpentOn)
    && c.totalSales == CountWhere(c.transactions, IsSoldItem)
    && c.totalEarned == SumOf(c.transactions, EarnedBy)
    && c.stageDurations.Keys <= KnownStages
  }

  predicate LoggerConsistent(l: Logger)
  {
    l.current.Some? ==> Consistent(l.current.value)
  }

  /** Appending one transaction moves each total by that transaction's
      share. */
  lemma AppendShares(ts: seq<Transaction>, t: Transaction)
    ensures CountWhere(ts + [t], IsBoughtItem) == CountWhere(ts, IsBoughtItem) + (if IsBoughtItem(t) then 1 else 0)
    ensures CountWhere(ts + [t], IsSoldItem) == CountWhere(ts, IsSoldItem) + (if IsSoldItem(t) then 1 else 0)
    ensures SumOf(ts + [t], SpentOn) == SumOf(ts, SpentOn) + SpentOn(t)
    ensures SumOf(ts + [t], EarnedBy) == SumOf(ts, EarnedBy) + EarnedBy(t)
  {
    CountWhereAppend(ts, [t], IsBoughtItem);
    CountWhereAppend(ts, [t], IsSoldItem);
    SumOfAppend(ts, [t], SpentOn);
    SumOfAppend(ts, [t], EarnedBy);
    assert [t][1..] == [];
  }

  // ---------------------------------------------------------------------
  // Cycles and stages

  /** `start_cycle`: a fresh record, replacing any cycle in progress. */
  function StartCycle(l: Logger, id: string, now: real): (r: Logger)
    ensures r.current.Some? && Consistent(r.current.value)
    ensures r.current.value.transactions == [] && r.current.value.errors == [] && r.current.value.success
    ensures r.stageStart == l.stageStart
  {
    Logger(Some(CycleRecord(id, now, None, None, map[], None, None, [], 0, 0, 0.0, 0.0, 0.0, [], true)), l.stageStart)
  }

  /** `end_cycle`: nothing without a cycle; otherwise the record is closed
      (end time, duration, success, net profit) and handed back, and no
      cycle is in progress any more. */
  function EndCycle(l: Logger, success: bool, now: real): (r: (Logger, Option<CycleRecord>))
    ensures l.current.None? ==> r == (l, None)
    ensures r.0.current.None? && r.0.stageStart == l.stageStart
    ensures l.current.Some? ==> r.1.Some?
                                && r.1.value == l.current.value.(end := Some(now), duration := Some(now - l.current.value.start),
                                                                 success := success, netProfit := r.1.value.netProfit)
    ensures l.current.Some? ==> r.1.value.netProfit == r.1.value.totalEarned - r.1.value.totalSpent
    ensures LoggerConsistent(l) && r.1.Some? ==> Consistent(r.1.value)
  {
    match l.current
    case None => (l, None)
    case Some(c) =>
      var closed := c.(end := Some(now), duration := Some(now - c.start), success := success,
                       netProfit := c.totalEarned - c.totalSpent);
      (Logger(None, l.stageStart), Some(closed))
  }

  /** For a consistent record, the closed record's net profit is what the
      successful sales earned less what the successful purchases cost. */
  lemma NetProfitFromTransactions(l: Logger, success: bool, now: real)
    requires LoggerConsistent(l) && l.current.Some?
    ensures var c := EndCycle(l, success, now).1.value;
            c.netProfit == SumOf(c.transactions, EarnedBy) - SumOf(c.transactions, SpentOn)
  {
  }

  /** `start_stage`. */
  function StartStage(l: Logger, now: real): (r: Logger)
    ensures r.stageStart == Some(now) && r.current == l.current
  {
    l.(stageStart := Some(now))
  }

  /** `end_stage`: nothing without a stage start or a cycle (and the start
      is then kept); otherwise the stage's duration goes into its field
      when the name is one the record knows, and the start is cleared. */
  function EndStage(l: Logger, name: string, now: real): (r: Logger)
    ensures l.stageStart.None? || l.current.None? ==> r == l
    ensures l.stageStart.Some? && l.current.Some? ==>
              && r.stageStart.None? && r.current.Some?
              && (name in KnownStages ==> r.current.value.stageDurations == l.current.value.stageDurations[name := now - l.stageStart.value])
              && (name !in KnownStages ==> r.current.value.stageDurations == l.current.value.stageDurations)
              && r.current.value == l.current.value.(stageDurations := r.current.value.stageDurations)
    ensures LoggerConsistent(l) ==> LoggerConsistent(r)
  {
    match (l.stageStart, l.current)
    case (Some(t0), Some(c)) =>
      var d := if name in KnownStages then c.stageDurations[name := now - t0] else c.stageDurations;
      Logger(Some(c.(stageDurations := d)), None)
    case _ => l
  }

  /** `record_resource_snapshot`: kept only under "before" or "after". */
  function RecordResourceSnapshot(l: Logger, snapshot: ResourceSnapshot, caption: string): (r: Logger)
    ensures l.current.None? || (caption != "before" && caption != "after") ==> r == l
    ensures l.current.Some? && caption == "before" ==> r.current == Some(l.current.value.(before := Some(snapshot)))
    ensures l.current.Some? && caption == "after" ==> r.current == Some(l.current.value.(after := Some(snapshot)))
    ensures r.stageStart == l.stageStart
    ensures LoggerConsistent(l) ==> LoggerConsistent(r)
  {
    match l.current
    case None => l
    case Some(c) =>
      if caption == "before" then l.(current := Some(c.(before := Some(snapshot))))
      else if caption == "after" then l.(current := Some(c.(after := Some(snapshot))))
      else l
  }

  // ---------------------------------------------------------------------
  // Transactions

  /** Adds a transaction to the cycle in progress, moving the totals when
      it is a successful purchase or sale. */
  function Record(l: Logger, t: Transaction): (r: Logger)
    ensures l.current.None? ==> r == l
    ensures l.current.Some? ==> r.current.Some? && r.current.value.transactions == l.current.value.transactions + [t]
    ensures LoggerConsistent(l) ==> LoggerConsistent(r)
    ensures r.stageStart == l.stageStart
  {
    match l.current
    case None => l
    case Some(c) =>
      AppendShares(c.transactions, t);
      var c2 := c.(transactions := c.transactions + [t],
                   totalPurchases := c.totalPurchases + (if IsBoughtItem(t) then 1 else 0),
                   totalSpent := c.totalSpent + SpentOn(t),
                   totalSales := c.totalSales + (if IsSoldItem(t) then 1 else 0),
                   totalEarned := c.totalEarned + EarnedBy(t));
      l.(current := Some(c2))
  }

  /** `record_purchase`: recorded whether or not it succeeded; only a
      success is counted and its total price spent. */
  function RecordPurchase(l: Logger, item: string, quantity: int, unitPrice: real, totalPrice: real, success: bool): (r: Logger)
    ensures l.current.None? ==> r == l
    ensures l.current.Some? ==>
              && r.current.Some?
              && |r.current.value.transactions| == |l.current.value.transactions| + 1
              && r.current.value.totalPurchases == l.current.value.totalPurchases + (if success then 1 else 0)
              && r.current.value.totalSpent == l.current.value.totalSpent + (if success then totalPrice else 0.0)
              && r.current.value.totalSales == l.current.value.totalSales
              && r.current.value.totalEarned == l.current.value.totalEarned
    ensures LoggerConsistent(l) ==> LoggerConsistent(r)
  {
    Record(l, Transaction(Purchase, item, quantity, unitPrice, totalPrice, success))
  }

  /** `record_sale`: as a purchase, on the sales totals. */
  function RecordSale(l: Logger, item: string, quantity: int, unitPrice: real, totalPrice: real, success: bool): (r: Logger)
    ensures l.current.None? ==> r == l
    ensures l.current.Some? ==>
              && r.current.Some?
              && |r.current.value.transactions| == |l.current.value.transactions| + 1
              && r.current.value.totalSales == l.current.value.totalSales + (if success then 1 else 0)
              && r.current.value.totalEarned == l.current.value.totalEarned + (if success then totalPrice else 0.0)
              && r.current.value.totalPurchases == l.current.value.totalPurchases
              && r.current.value.totalSpent == l.current.value.totalSpent
    ensures LoggerConsistent(l) ==> LoggerConsistent(r)
  {
    Record(l, Transaction(Sale, item, quantity, unitPrice, totalPrice, success))
  }

  /** `record_withdrawal`: recorded, counted in no total. */
  function RecordWithdrawal(l: Logger, amount: real, success: bool): (r: Logger)
    ensures l.current.None? ==> r == l
    ensures l.current.Some? ==>
              && r.current.Some?
              && |r.current.value.transactions| == |l.current.value.transactions| + 1
              && r.current.value.totalPurchases == l.current.value.totalPurchases
              && r.current.value.totalSpent == l.current.value.totalSpent
              && r.current.value.totalSales == l.current.value.totalSales
              && r.current.value.totalEarned == l.current.value.totalEarned
    ensures LoggerConsistent(l) ==> LoggerConsistent(r)
  {
    Record(l, Transaction(Withdrawal, "Bank Withdrawal", 1, amount, amount, success))
  }

  /** `record_storage_operation`: recorded at no price, counted in no total. */
  function RecordStorageOperation(l: Logger, operation: string, itemCount: int, success: bool): (r: Logger)
    ensures l.current.None? ==> r == l
    ensures l.current.Some? ==>
              && r.current.Some?
              && |r.current.value.transactions| == |l.current.value.transactions| + 1
              && r.current.value.totalPurchases == l.current.value.totalPurchases
              && r.current.value.totalSales == l.current.value.totalSales
    ensures LoggerConsistent(l) ==> LoggerConsistent(r)
  {
    Record(l, Transaction(StorageMove, "Storage " + operation, itemCount, 0.0, 0.0, success))
  }

  /** The message `record_error` stores: prefixed by the stage in
      brackets when a stage is given. */
  function ErrorMessage(message: string, stage: string): (m: string)
    ensures stage == [] ==> m == message
    ensures stage != [] ==> |m| == |stage| + 3 + |message| && m[0] == '[' && m[1..|stage| + 1] == stage && m[|stage| + 1..|stage| + 3] == "] "
                            && m[|stage| + 3..] == message
  {
    if stage != [] then "[" + stage + "] " + message else message
  }

  /** `record_error`: one message appended to the cycle in progress. */
  function RecordError(l: Logger, message: string, stage: string): (r: Logger)
    ensures l.current.None? ==> r == l
    ensures l.current.Some? ==> r.current == Some(l.current.value.(errors := l.current.value.errors + [ErrorMessage(message, stage)]))
    ensures LoggerConsistent(l) ==> LoggerConsistent(r)
  {
    match l.current
    case None => l
    case Some(c) => l.(current := Some(c.(errors := c.errors + [ErrorMessage(message, stage)])))
  }

  /** Whatever is recorded, a ledger started afresh stays consistent: the
      totals always match the successful transactions. */
  lemma {:induction false} LedgerStaysConsistent(l: Logger, events: seq<Transaction>)
    requires LoggerConsistent(l)
    ensures LoggerConsistent(RecordAll(l, events))
    decreases |events|
  {
    if |events| > 0 {
      LedgerStaysConsistent(Record(l, events[0]), events[1..]);
    }
  }

  /** A run of transactions recorded in order. */
  function RecordAll(l: Logger, events: seq<Transaction>): (r: Logger)
    ensures l.current.None? ==> r == l
    ensures l.current.Some? ==> r.current.Some? && r.current.value.transactions == l.current.value.transactions + events
    decreases |events|
  {
    if |events| == 0 then
      assert l.current.Some? ==> l.current.value.transactions + events == l.current.value.transactions;
      l
    else
      var r := RecordAll(Record(l, events[0]), events[1..]);
      assert l.current.Some? ==> l.current.value.transactions + [events[0]] + events[1..] == l.current.value.transactions + events;
      r
  }
}
