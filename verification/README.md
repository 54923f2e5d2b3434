# Dead Frontier trading bot: a Dafny model of its decision logic

The bot logs in to the Dead Frontier web game, checks its money and
storage, buys underpriced items from the marketplace and lists them for
sale again. Every step that touches the browser (reading the page,
clicking, typing) is an input here: the page's text, the balances read
before and after an action, and the reply of a purchase are parameters.
The current time and the peak-hours flag are parameters too. What is
left is deterministic decision logic. The model states it as pure
functions over immutable records and proves what the code promises.

One Dafny module per source component:

- `Common`, `Text` and `NumberText` hold the Python built-ins the code
  leans on. These are `int()` truncation, slicing, `list.index`, stable
  sorting, ASCII `lower`/`strip`/`in`/`split`, and reading digit runs.
- `Models` holds the resource snapshots: inventory, storage, selling
  slots, player resources and the engine's `SystemResources`.
- `StateMachine` holds the 18 trading states, the transition table,
  retries, history, wait deadlines and statistics.
- `TradingConfig` holds the market-search, buying and selling settings:
  the defaults, validation, lookups and `update_config`.
- `BuyingStrategy` and `SellingStrategy` hold opportunity filtering,
  price estimates, ranking, caps, slot limits and clearing candidates.
- `TradingEngine` holds the cycle: the phase order, the withdrawal and
  space thresholds, the buying loop, and error escalation. It also
  holds the wait between cycles.
- `BankOperations`, `InventoryManager`, `MarketOperations` and
  `PageNavigator` hold two things:
  - text parsing;
  - the verification that compares the reads before and after an action.
- `LoginHandler`, `CookieManager` and `BrowserManager` hold the login
  gate, saved sessions and the browser error counter.
- `TradingLogger` holds the per-cycle ledger of transactions and its
  totals.
- `ListingHelpers` holds item-name normalisation, inventory matching and
  listing prices.

Prices, markups and durations are Dafny `real`s, which are exact.
Python's `int()` on them is truncation toward zero (`Common.Trunc`).

## Model

| member | source | states |
|---|---|---|
| Common.Trunc | src/dfautotrans/core/state_machine.py:261-262 | Python's `int()` on a float truncates toward zero: the result lies within one of the argument, on the side of zero |
| Common.PyPrefix | src/dfautotrans/strategies/selling_strategy.py:140 | Python's `s[:n]` is a prefix of `s`; it has `min(n, len)` entries for non-negative `n`, and for negative `n` drops `-n` entries from the end |
| Common.FirstIndex | src/dfautotrans/config/trading_config.py:246-247 | Python's `list.index`: the position of the first occurrence, nothing earlier equal, and -1 exactly where Python raises |
| Common.SortDesc | src/dfautotrans/strategies/buying_strategy.py:105 | the sort by a key, highest first, returns a permutation of its input in non-increasing key order |
| Common.SortAsc | src/dfautotrans/strategies/selling_strategy.py:359-360 | the ascending sort returns a permutation of its input in non-decreasing key order |
| Common.SortDescCount | src/dfautotrans/strategies/buying_strategy.py:105 | sorting keeps how many elements pass any test |
| Common.SortDescSum | src/dfautotrans/strategies/buying_strategy.py:105 | sorting keeps the sum of any per-element quantity |
| Common.AppendBounded | src/dfautotrans/strategies/buying_strategy.py:304-310 | a bounded history ends with the new entry and holds the latest `min(len + 1, limit)` entries of the appended list, as `record_purchase` and `record_sale` keep them |
| Common.AppendAllBounded | src/dfautotrans/core/trading_engine.py:337-344 | recording several entries one at a time leaves the history unchanged when there are none, and otherwise holds the latest `min(len + n, limit)` entries of the history followed by the new ones |
| Common.LowestN | src/dfautotrans/strategies/selling_strategy.py:359-362 | the first n of a list sorted by key: `min(n, len)` entries in ascending key order, a sub-multiset of the list, none with a larger key than any entry left out |
| Models.Available | src/dfautotrans/data/models.py:206-246 | the free count of an inventory, a storage or the selling slots is zero exactly when the container is full; below capacity, used plus free equals the capacity; it never exceeds the capacity |
| Models.SnapshotTotalsAgree | src/dfautotrans/data/models.py:258-268 | the player snapshot's total available cash equals the total the engine stores when it builds its snapshot from the same reads (trading_engine.py:217-227), and the player can trade exactly when that total is positive and the inventory has room |
| Models.CanTrade | src/dfautotrans/data/models.py:262-266 | trading is possible exactly when the total is positive and the inventory has room; then at least one inventory slot is free |
| Models.IsCompletelyBlocked | src/dfautotrans/data/models.py:268-274 | blocked exactly when the total is zero and inventory, storage and selling slots have no free place; a blocked player cannot trade |
| Models.SnapshotExamples | tests/test_stage1_infrastructure.py:400-438 | the roomy snapshot of the tests can trade with a total of 15000 and is not blocked; the saturated one cannot trade and is blocked |
| Models.MakeSystemResources | src/dfautotrans/core/trading_engine.py:217-227 | the engine's first snapshot keeps the five reads and stores cash plus bank as its total |
| Models.BlockedTestsAgree | src/dfautotrans/core/trading_engine.py:454-461 | for non-negative money the engine's blocked test on its snapshot agrees with the player-resources blocked test |
| StateMachine.Init | src/dfautotrans/core/state_machine.py:21-37 | a new machine is in IDLE with no previous state, no history, retry count 0 and no wait deadline |
| StateMachine.CanTransitionTo | src/dfautotrans/core/state_machine.py:39-155 | a target is allowed exactly when it is in the current state's rule list; every state but CRITICAL_ERROR may go to CRITICAL_ERROR, CRITICAL_ERROR may only go to IDLE, LOGIN_FAILED, ERROR and CRITICAL_ERROR have no ERROR edge, IDLE is reachable only from the two error states, and no state may go to itself |
| StateMachine.SetState | src/dfautotrans/core/state_machine.py:157-185 | any target is entered regardless of the table; the old state becomes the previous one, exactly one history entry is appended recording the old state, the target and the retry count, the retry count resets unless the target is ERROR or CRITICAL_ERROR, and the wait deadline is cleared |
| StateMachine.TransitionTo | src/dfautotrans/core/state_machine.py:187-222 | a disallowed target raises and leaves the machine unchanged; an allowed one has exactly the effect of a direct state change |
| StateMachine.HandleError | src/dfautotrans/core/state_machine.py:224-244 | the retry count is incremented in every outcome; past the maximum of 3 the machine enters CRITICAL_ERROR and answers False, otherwise ERROR and True; it raises exactly when the required edge is missing (from CRITICAL_ERROR when escalating, from LOGIN_FAILED, ERROR or CRITICAL_ERROR otherwise), with only the count changed |
| StateMachine.SecondErrorEscalatesOrRaises | src/dfautotrans/core/state_machine.py:224-244 | after an error handled into ERROR, the next error either escalates to CRITICAL_ERROR with answer False (retries exhausted) or raises, since ERROR has no edge to itself |
| StateMachine.RetryResetsOnRecovery | src/dfautotrans/core/state_machine.py:187-244 | an allowed move out of ERROR to a working state resets the retry count, so the next error counts as the first |
| StateMachine.SetWaitCondition | src/dfautotrans/core/state_machine.py:246-262 | setting a wait leaves state, history and retry count alone; a positive wait makes the machine waiting, and the remaining whole seconds are the requested ones, clamped at zero |
| StateMachine.WaitRemaining | src/dfautotrans/core/state_machine.py:251-262 | the remaining time is zero without a deadline, positive only while waiting, and while waiting it is the time left truncated to whole seconds |
| StateMachine.WaitingOnlyEnds | src/dfautotrans/core/state_machine.py:251-255 | `IsWaiting` (`is_waiting`) only ends: waiting now means waiting at every earlier time, and no machine waits once its deadline has passed |
| StateMachine.PerState | src/dfautotrans/core/state_machine.py:293-310 | the per-state table has an entry exactly for the states some recorded transition left, holding that state's count of departures and summed duration |
| StateMachine.GetStateStatistics | src/dfautotrans/core/state_machine.py:289-318 | no statistics for an empty history; otherwise the transition count is the history length, every origin of a recorded transition has an entry and every entry has a positive count |
| StateMachine.CountFromPositive | src/dfautotrans/core/state_machine.py:297-304 | a state that some recorded transition left is counted at least once |
| StateMachine.DurationFromUncounted | src/dfautotrans/core/state_machine.py:297-305 | a state that no recorded transition left has accumulated no time |
| StateMachine.AllStates | src/dfautotrans/data/models.py:178-198 | the enumeration lists 18 states, each once |
| StateMachine.AllStatesComplete | src/dfautotrans/data/models.py:178-198 | every trading state occurs in the enumeration |
| StateMachine.CountsPartitionHistory | src/dfautotrans/core/state_machine.py:289-318 | the per-state counts add up to the number of recorded transitions: counting by origin partitions the history |
| StateMachine.Reset | src/dfautotrans/core/state_machine.py:331-339 | the machine returns to the initial configuration (IDLE, no previous state, retry count 0, no wait) and keeps its history |
| TradingConfig.FirstNonPositive | src/dfautotrans/config/trading_config.py:224-226 | no index is reported exactly when every ceiling is positive; a reported index holds a ceiling that is not positive and every earlier one is positive |
| TradingConfig.ValidateConfig | src/dfautotrans/config/trading_config.py:210-239 | an unloaded configuration is rejected; a loaded one is valid exactly when the item and price lists have equal length, every ceiling is positive, the minimum margin lies strictly between 0 and 1 and the delay range is increasing; each rejection names a rule the configuration breaks |
| TradingConfig.LengthMismatchFirst | src/dfautotrans/config/trading_config.py:216-221 | lists of different lengths are reported with both lengths, before any other rule |
| TradingConfig.DefaultConfigIsValid | src/dfautotrans/config/trading_config.py:302-325 | the default configuration passes validation, lists seven items and gives them priorities 1 to 7 in list order |
| TradingConfig.DefaultCeilingsPositive | src/dfautotrans/config/trading_config.py:306-307 | the default lists seven items and seven positive ceilings |
| TradingConfig.DefaultItemsDistinct | src/dfautotrans/config/trading_config.py:306 | the seven default item names are pairwise different |
| TradingConfig.DefaultPrioritiesInOrder | src/dfautotrans/config/trading_config.py:311-320 | the default item at position i has priority i + 1 |
| TradingConfig.GetItemMaxPrice | src/dfautotrans/config/trading_config.py:241-250 | a ceiling is found exactly when a configuration is loaded, the name is a target and its first index is inside the price list; the ceiling is the price at the first occurrence of the name |
| TradingConfig.CeilingOf | src/dfautotrans/config/trading_config.py:246-250 | the ceiling is the price at the name's first index, and is missing exactly when the name is absent or that index is beyond the price list |
| TradingConfig.GetItemPriority | src/dfautotrans/config/trading_config.py:252-257 | the configured priority of a listed item, and 999 for an unlisted item or when nothing is loaded |
| TradingConfig.IsTargetItem | src/dfautotrans/config/trading_config.py:259-264 | an item is a target exactly when a configuration is loaded and lists it |
| TradingConfig.ValidTargetsHaveCeilings | src/dfautotrans/config/trading_config.py:210-264 | in a valid configuration the target test and the ceiling lookup agree, and every target's ceiling is positive |
| TradingConfig.SetNestedValue | src/dfautotrans/config/trading_config.py:361-369 | a write succeeds exactly when the key has one part (a top-level field, or a section name, which replaces that whole section), or two parts naming a writable field of a section not yet replaced; any other path raises; a section-name write records the section as replaced and leaves every field alone; a boolean lands in a number field as 1 or 0 |
| TradingConfig.ApplyUpdates | src/dfautotrans/config/trading_config.py:196-197 | applying updates in order completes exactly when each update is writable given the sections replaced before it, and then the replaced sections are the earlier ones plus those the updates name |
| TradingConfig.ApplyResolves | src/dfautotrans/config/trading_config.py:196-197 | the update loop runs to the end exactly when each update is writable given the sections replaced by the updates before it |
| TradingConfig.ApplyStopsAtFailure | src/dfautotrans/config/trading_config.py:190-208 | no rollback: when an update raises, every earlier update stays applied and no later one is applied |
| TradingConfig.ApplyWithStops | src/dfautotrans/config/trading_config.py:196-197 | for any setter, the loop stops at the first failing update with the configuration reached before it |
| TradingConfig.UpdateConfig | src/dfautotrans/config/trading_config.py:190-208 | the configuration (loaded first if absent) receives the updates up to the first that raises; the answer is True exactly when every update is writable, none of the market-search, buying and risk-management sections (which validation reads, lines 216, 229, 234) has been replaced, and the result is valid |
| TradingConfig.FailedValidationKeepsUpdate | src/dfautotrans/config/trading_config.py:190-208 | an update that can be written but breaks validation is answered False yet stays in the configuration |
| TradingConfig.SectionOverwrite | src/dfautotrans/config/trading_config.py:190-240 | writing a plain value over a whole section keeps every field, records the section as replaced, and is answered True exactly when no validated section (market search, buying, risk management) is replaced and the configuration is valid |
| TradingConfig.BuyingOverwriteRejected | src/dfautotrans/config/trading_config.py:190-240 | `update_config({"buying": 5})` replaces the buying section and is answered False, since validation then reads the missing margin |
| TradingConfig.ReplacedSectionUnwritable | src/dfautotrans/config/trading_config.py:361-369 | once a section is replaced, a write to one of its fields raises |
| TradingConfig.MarginUpdateBreaksValidation | src/dfautotrans/config/trading_config.py:229-230 | writing a profit margin of 2.0 stores it, and validation then fails on the margin rule |
| TradingConfig.AsReal | src/dfautotrans/config/trading_config.py:361-369 | a number or boolean can go into a float field (booleans as 1.0 and 0.0), nothing else can |
| TradingConfig.AsInt | src/dfautotrans/config/trading_config.py:361-369 | an integer or boolean can go into an int field (booleans as 1 and 0), nothing else can |
| TradingConfig.AsBool | src/dfautotrans/config/trading_config.py:361-369 | every value has a truth value for a flag field, a boolean its own |
| TradingConfig.BoolMarginStored | src/dfautotrans/config/trading_config.py:361-369 | while the buying section is there, writing `True` to the profit margin key stores a margin of 1 and changes nothing else |
| TradingConfig.BoolMarginFailsValidation | src/dfautotrans/config/trading_config.py:190-208 | while the buying section is there, updating the profit margin to `True` stores a margin of 1, and the update then reports failure |
| Text.Split | src/dfautotrans/config/trading_config.py:363 | like Python's `split` on one character, the key yields at least one part and no part holds the separator |
| Text.JoinSplit | src/dfautotrans/config/trading_config.py:363 | joining the parts of a split key with the separator gives the key back |
| Text.SplitJoin | src/dfautotrans/config/trading_config.py:363 | splitting a join of separator-free parts gives the same parts back, so a dotted key path and its list of keys determine each other |
| BuyingStrategy.PassesBasicFilters | src/dfautotrans/strategies/buying_strategy.py:115-138 | a passing listing is a configured target priced at or under the ceiling paired with its name, fits in the funds and has between 1 and a hundred times the search size units; a non-target never passes |
| BuyingStrategy.EstimateSellPrice | src/dfautotrans/strategies/buying_strategy.py:187-214 | without a ceiling the estimate is 1.2 times the price; with one it never exceeds 1.30 times the ceiling and is either that cap or the markup over 85% of the ceiling |
| BuyingStrategy.AssessRisk | src/dfautotrans/strategies/buying_strategy.py:243-272 | risk is low exactly for a listing costing at most 10000 with a margin at least 1.2 times the minimum and at most 2000 units; high exactly when the cost exceeds 30000, or exceeds 10000 with a thin margin |
| BuyingStrategy.PriorityFactor | src/dfautotrans/strategies/buying_strategy.py:222-227 | an item without a priority is not scaled by priority |
| BuyingStrategy.SizeAdjusted | src/dfautotrans/strategies/buying_strategy.py:229-239 | the quantity and cost factors keep a non-negative score between 0.9 and 1.21 times itself, and a positive one positive |
| BuyingStrategy.SizeAdjustedStrict | src/dfautotrans/strategies/buying_strategy.py:229-239 | the size factors keep the order of the scores they scale |
| BuyingStrategy.PriorityScore | src/dfautotrans/strategies/buying_strategy.py:216-241 | for an unprioritised item with non-negative margin the score lies between 90 and 121 times the margin, and is positive for a positive margin |
| BuyingStrategy.SmallerPriorityScoresHigher | src/dfautotrans/strategies/buying_strategy.py:216-241 | a smaller priority number gives a strictly higher score, other things equal |
| BuyingStrategy.EvaluateSingleItem | src/dfautotrans/strategies/buying_strategy.py:151-185 | an opportunity exists exactly when the estimated resale price beats a non-zero price by at least the minimum margin; it carries the listing, the estimate, the relative margin and the risk of that margin |
| BuyingStrategy.AdmissibleWithinCeiling | src/dfautotrans/strategies/buying_strategy.py:115-185 | a selected opportunity has a configured ceiling, its price is at or under it, and its margin clears the minimum |
| BuyingStrategy.SelectAffordable | src/dfautotrans/strategies/buying_strategy.py:65-103 | the loop takes exactly the listings the one-at-a-time selection `Selection` takes, in input order |
| BuyingStrategy.SelectStep | src/dfautotrans/strategies/buying_strategy.py:69-95 | one turn either leaves the selection unchanged or appends the listing's opportunity and adds its cost to the total |
| BuyingStrategy.Selection | src/dfautotrans/strategies/buying_strategy.py:65-103 | the running total of the selection is always the summed cost of the opportunities taken |
| BuyingStrategy.Evaluations | src/dfautotrans/strategies/buying_strategy.py:70-91 | the unconstrained evaluations are no more than the listings, each an admissible opportunity for a listing of the input |
| BuyingStrategy.SelectionTakesAllWhenAffordable | src/dfautotrans/strategies/buying_strategy.py:65-103 | with diversification off, non-negative costs and funds enough for every opportunity at once, the selection takes every opportunity in input order |
| BuyingStrategy.SelectionAdmissible | src/dfautotrans/strategies/buying_strategy.py:65-103 | the selection takes no more than the listings, only admissible opportunities from them, and once anything is taken the total stays within the funds |
| BuyingStrategy.SelectionCounts | src/dfautotrans/strategies/buying_strategy.py:75-95 | with diversification on, the counts the loop keeps agree with the taken list and none exceeds five |
| BuyingStrategy.RankAndCap | src/dfautotrans/strategies/buying_strategy.py:105-110 | the result is ordered by margin, highest first, is a prefix of the sorted list and has `min(len, max)` entries for a non-negative cap |
| BuyingStrategy.RankAndCapMembers | src/dfautotrans/strategies/buying_strategy.py:105-110 | ranking and capping only reorders and drops opportunities |
| BuyingStrategy.RankAndCapCounts | src/dfautotrans/strategies/buying_strategy.py:105-110 | ranking and capping never raises the count of any item |
| BuyingStrategy.RankAndCapCost | src/dfautotrans/strategies/buying_strategy.py:105-110 | with no negative costs, ranking and capping never raises the total cost |
| BuyingStrategy.EvaluateMarketItems | src/dfautotrans/strategies/buying_strategy.py:48-113 | the opportunities are exactly those of the selection, ranked by margin and cut to the per-cycle cap; every one is an admissible listing from the input; the list is ordered by margin, highest first, and is no longer than the cap; with diversification on no item appears more than five times; with non-negative prices the listings together cost no more than the funds |
| BuyingStrategy.GetMarketConditionAssessment | src/dfautotrans/strategies/buying_strategy.py:274-302 | counts the opportunities, estimates twice as many scanned, gives their mean margin (0 for none), and rates activity high from 10 opportunities and low below 5 |
| BuyingStrategy.AverageMarginAtLeastMinimum | src/dfautotrans/strategies/buying_strategy.py:274-302 | the mean margin reported for selected opportunities is never below the configured minimum |
| SellingStrategy.FirstDefaultSpec | src/dfautotrans/strategies/selling_strategy.py:246-251 | the default-price lookup finds nothing exactly when no table key occurs in the name (both in lower case), and otherwise gives the price of the first key that occurs |
| SellingStrategy.ClampedMarkup | src/dfautotrans/strategies/selling_strategy.py:202-213 | with adjustment off the markup is the configured one; with it on the markup lies in [min, max] and equals the configured one when that is already inside |
| SellingStrategy.UnconfiguredPrice | src/dfautotrans/strategies/selling_strategy.py:235-256 | an item without a ceiling is priced at the markup over the first matching default price, or over 10 when none matches |
| SellingStrategy.ConfiguredPrice | src/dfautotrans/strategies/selling_strategy.py:198-231 | a configured price never exceeds the cap (1.30 times the ceiling, 1.50 at peak); off peak it is the cap or the markup over 85% of the ceiling |
| SellingStrategy.CalculateSellingPrice | src/dfautotrans/strategies/selling_strategy.py:171-256 | a configured item is priced at or under its cap, and off peak at the cap or the clamped markup over 85% of its ceiling; any other item gets the default-table price |
| SellingStrategy.SellingPriceMatchesBuyingEstimate | src/dfautotrans/strategies/buying_strategy.py:187-214 | off peak, with the markup inside its range, the selling price of a configured item equals the resale price the buying strategy estimated |
| SellingStrategy.PeakNeverCheaper | src/dfautotrans/strategies/selling_strategy.py:219-231 | a peak multiplier of at least 1 never lowers the price of a configured item |
| SellingStrategy.SellingPriceAsWritten | src/dfautotrans/strategies/selling_strategy.py:49-52 | as the source runs, pricing a configured item raises, because the peak test reads a field the selling section lacks; other items are priced normally |
| SellingStrategy.EvaluateSellingItemAsWritten | src/dfautotrans/strategies/selling_strategy.py:149-169 | as the source runs, an order, when there is one, is for the item at a positive price |
| SellingStrategy.ConfiguredItemsNeverListedAsWritten | src/dfautotrans/strategies/selling_strategy.py:149-169 | as the source runs, no configured item, which are the items the bot buys, ever becomes a sell order |
| SellingStrategy.EvaluateSellingItem | src/dfautotrans/strategies/selling_strategy.py:149-169 | an order exists exactly when the price is positive; it is for the item, unnumbered, at that price, ranked by the value of the whole stack |
| SellingStrategy.SellCandidates | src/dfautotrans/strategies/selling_strategy.py:103-113 | one order per sellable inventory item, each the evaluation of an item of the input |
| SellingStrategy.SellLimit | src/dfautotrans/strategies/selling_strategy.py:118-138 | the limit is the least of the free slots, the configured slot budget and the slots left under the threshold share, so it is no larger than any of them |
| SellingStrategy.NumberSlots | src/dfautotrans/strategies/selling_strategy.py:142-144 | the k-th order gets slot k + 1, and nothing else changes |
| SellingStrategy.NumberSlotsKeepsOrder | src/dfautotrans/strategies/selling_strategy.py:142-144 | numbering keeps the ranking order |
| SellingStrategy.PlanSellingStrategyAsWritten | src/dfautotrans/strategies/selling_strategy.py:76-147 | as written, nothing is planned without items or free slots, and a negative limit keeps all but the last few ranked orders |
| SellingStrategy.NegativeLimitOverfillsAsWritten | src/dfautotrans/strategies/selling_strategy.py:129-140 | with 25 of 26 slots in use and the default 95% threshold the limit is -1, so three sellable items become two orders although the threshold is already exceeded |
| SellingStrategy.PlanSellingStrategy | src/dfautotrans/strategies/selling_strategy.py:76-147 | nothing is planned without items or free slots; otherwise the most valuable sellable items, highest value first, numbered from slot 1, as many as the non-negative limit allows and never more than the free slots |
| SellingStrategy.PlanAsWrittenAgreesOnNonNegativeLimit | src/dfautotrans/strategies/selling_strategy.py:118-147 | whenever the slot limit is not negative, the plan as written and the corrected plan are the same orders |
| SellingStrategy.PlannedOrdersAreSellable | src/dfautotrans/strategies/selling_strategy.py:103-144 | every planned order is for an inventory item at its computed, positive price, in the slot matching its position |
| SellingStrategy.ClearCandidates | src/dfautotrans/strategies/selling_strategy.py:340-356 | one candidate per inventory item, at the same position, holding that item at its computed price with the stack value as priority |
| SellingStrategy.SpaceToClear | src/dfautotrans/strategies/selling_strategy.py:320-337 | never less than the space needed; exactly the need when the item count is below the pressure threshold |
| SellingStrategy.ShouldClearInventorySpace | src/dfautotrans/strategies/selling_strategy.py:300-365 | nothing when no space is needed; otherwise a sub-multiset of the candidates, lowest priority first, as many as there is space to clear (at least the need when there are enough items), and no candidate left out is cheaper than one chosen |
| SellingStrategy.ClearCandidatesFromInventory | src/dfautotrans/strategies/selling_strategy.py:340-356 | every clearing candidate holds an item of the inventory |
| SellingStrategy.Unconfigured | src/dfautotrans/strategies/selling_strategy.py:340-356 | the items with no configured ceiling, in order, and only those |
| SellingStrategy.ClearCandidatesAsWritten | src/dfautotrans/strategies/selling_strategy.py:49-52 | as written, pricing a configured item raises and the exception is caught per item, so the candidates are those of the unconfigured items only |
| SellingStrategy.ClearCandidatesAsWrittenSkipsConfigured | src/dfautotrans/strategies/selling_strategy.py:340-356 | the candidates as written are exactly the corrected candidates of the unconfigured items |
| SellingStrategy.ConfiguredStackNeverClearedAsWritten | src/dfautotrans/strategies/selling_strategy.py:340-356 | a lone configured stack yields no clearing candidate as written, while the corrected clearing offers it |
| TradingEngine.NewEngine | src/dfautotrans/core/trading_engine.py:67-80 | a new engine has all session statistics, the error streak and the session's error counters at zero, empty histories, and an IDLE machine without history |
| TradingEngine.ApplyStates | src/dfautotrans/core/trading_engine.py:114-163 | applying the states the engine sets, in order, ends in the last of them and appends exactly one history entry per state, each recording that state as its target |
| TradingEngine.LoginCheck | src/dfautotrans/core/trading_engine.py:165-193 | the check succeeds exactly when the last smart-login call does, every earlier call having failed; it makes at most `max(1, limit - failures)` calls, enters LOGIN_REQUIRED once per call and LOGIN_FAILED only on giving up, and the session's failure count grows by one per failed call |
| TradingEngine.ResourceCheckAsWritten | src/dfautotrans/core/trading_engine.py:207-227 | as written, the check reads attributes the inventory and storage reads do not have, so it reports no resources whatever the reads |
| TradingEngine.WithdrawStepAsWritten | src/dfautotrans/core/trading_engine.py:235-239 | as written, a snapshot that needs no withdrawal is kept; after a withdrawal only the cash is read again and the total adds the bank balance read before it |
| TradingEngine.StaleBankDoubleCountsAsWritten | src/dfautotrans/core/trading_engine.py:235-239 | as written, with 0 cash and 5000 in the bank the snapshot reports 10000 of funds after the withdrawal, though the player holds 5000 |
| TradingEngine.WithdrawStep | src/dfautotrans/core/trading_engine.py:235-239 | the withdrawal happens exactly when cash is under 10000 and the bank is not empty; afterwards the snapshot's cash, bank and total are the fresh reads and their sum; containers are untouched |
| TradingEngine.ResourceCheck | src/dfautotrans/core/trading_engine.py:195-246 | no snapshot when a money or slot read is empty; otherwise the total is always cash plus bank, the container counts are the reads, and the snapshot is the first one unless a withdrawal was due |
| TradingEngine.SpaceManagement | src/dfautotrans/core/trading_engine.py:248-280 | the phase enters CHECKING_INVENTORY; it deposits exactly when fewer than 10 inventory slots are free and storage has room, and enters SPACE_FULL exactly when fewer than 10 are free and storage is full; it fails only when the deposit raises; money, capacities and selling slots are unchanged, and only a successful deposit with a fresh check changes the counts |
| TradingEngine.BuyLoop | src/dfautotrans/core/trading_engine.py:331-360 | the loop records exactly the counted purchases among the attempted ones, takes every opportunity when more than 5 inventory slots are free and stops after the first counted purchase otherwise, and lowers the cash by exactly the bought listings' cost, keeping the total equal to cash plus bank |
| TradingEngine.BuyingPhase | src/dfautotrans/core/trading_engine.py:313-365 | at most the first five opportunities are tried; the bought ones are the counted replies among them, all from the list, and the cash falls by their cost |
| TradingEngine.CountedOfBounds | src/dfautotrans/core/trading_engine.py:331-352 | the counted purchases are no more than, and drawn from, the attempted opportunities |
| TradingEngine.FailedPurchaseCountedAsWritten | src/dfautotrans/core/trading_engine.py:337-339 | as written, a first purchase whose reply reports failure is still recorded and paid for; the corrected test skips it |
| TradingEngine.ListedOf | src/dfautotrans/core/trading_engine.py:396-415 | the recorded sales are no more than, and drawn from, the planned orders |
| TradingEngine.SellingPhase | src/dfautotrans/core/trading_engine.py:367-424 | nothing is listed without inventory, a slot read or a free slot; otherwise the planned orders are listed and the sales are those whose listing succeeded, never more than the free slots |
| TradingEngine.Abort | src/dfautotrans/core/trading_engine.py:124-138 | a cycle stopped at a failed phase answers False after a prefix of the preparatory phases, applies only the states set so far and leaves statistics, error streak and histories unchanged |
| TradingEngine.TradingPhases | src/dfautotrans/core/trading_engine.py:140-151 | buying runs only with a valuable opportunity and adds at most five purchases; sales grow by at most the free slots; the cycle counts as successful whatever buying and selling achieved, and failed cycles and profit do not move |
| TradingEngine.Prepare | src/dfautotrans/core/trading_engine.py:121-138 | the preparatory phases run in order from LOGIN_REQUIRED, stop at the first that fails, and yield a snapshot exactly when login, resource check, space management and market analysis all succeed |
| TradingEngine.PrepareResources | src/dfautotrans/core/trading_engine.py:129-138 | after login the resource, space and analysis phases run in order from CHECKING_RESOURCES and yield a snapshot exactly when all three succeed |
| TradingEngine.PrepareSpace | src/dfautotrans/core/trading_engine.py:133-138 | the space and analysis phases run in order from CHECKING_INVENTORY and yield a snapshot exactly when both succeed |
| TradingEngine.RunTradingCycle | src/dfautotrans/core/trading_engine.py:114-163 | the phases run login, resources, space, analysis, buying (only with a valuable opportunity), selling; the cycle succeeds exactly when the four preparatory phases do; a failure stops before any later phase with no statistic moved; a success counts one successful cycle, clears the error streak and ends in SELLING |
| TradingEngine.CompleteCycle | src/dfautotrans/core/trading_engine.py:140-155 | a cycle whose preparatory phases succeeded enters BUYING exactly when there was an opportunity, ends in SELLING, keeps the phase order and clears the error streak |
| TradingEngine.HandleTradingError | src/dfautotrans/core/trading_engine.py:426-448 | the handler enters ERROR, counts the error as a network error exactly when its text mentions network or timeout in any case (a business error otherwise), and escalates to CRITICAL_ERROR with the blocked wait exactly at three or more consecutive errors, else waits 30 seconds |
| TradingEngine.FailCycle | src/dfautotrans/core/trading_engine.py:157-163 | an escaped error counts one failed cycle, extends the error streak by one, and escalates exactly when the streak reaches three (each phase catches its own errors at trading_engine.py:165-424, so this branch is seldom reached and the streak seldom grows) |
| TradingEngine.ThirdConsecutiveFailureEscalates | src/dfautotrans/core/trading_engine.py:157-163 | from a clean streak the first two escaped errors wait 30 seconds and the third escalates to CRITICAL_ERROR with the blocked wait (reachable only by three errors that each escape every phase's own error handling) |
| TradingEngine.WaitForNextCycle | src/dfautotrans/core/trading_engine.py:450-464 | a completely blocked snapshot waits the blocked interval in WAITING_BLOCKED, any other the normal interval in WAITING_NORMAL; the blocked wait is the longer |
| BankOperations.SkipSeparators | src/dfautotrans/automation/bank_operations.py:737-738 | the position reached is the first one at or after the start that is not a separator (`:` or white space, or white space alone), every character passed over being one |
| BankOperations.SearchFrom | src/dfautotrans/automation/bank_operations.py:744-745 | like `re.search`, the result is the leftmost position from the start at which the pattern matches, or -1 exactly when it matches nowhere from there |
| BankOperations.FirstPatternAmount | src/dfautotrans/automation/bank_operations.py:744-750 | the patterns are tried in order; nothing is found exactly when no pattern matches anywhere in the text, and a found amount is one some pattern matches |
| BankOperations.ExtractBankBalance | src/dfautotrans/automation/bank_operations.py:728-750 | empty text has no balance; otherwise the balance is the amount of the first of the four labelled patterns that matches |
| BankOperations.BankBalanceRoundTrip | src/dfautotrans/automation/bank_operations.py:735 | "Bank: $" followed by any amount written with thousands separators reads back as exactly that amount |
| BankOperations.CashValue | src/dfautotrans/automation/bank_operations.py:149 | a `[\d,]+` match converts exactly when something other than commas remains, and its value is that of the digits left once the commas are removed |
| BankOperations.FirstPlausibleCash | src/dfautotrans/automation/bank_operations.py:146-156 | the cash on hand is the first candidate whose value lies within 0..10,000,000; nothing is found exactly when no candidate is plausible |
| BankOperations.WithdrawFunds | src/dfautotrans/automation/bank_operations.py:176-266 | corrected: an unreachable page or an amount above the balance fails before any click; with the balance read from the page again after the click, the withdrawal completes exactly when the page, balance and controls are there, the amount fits, and the balance afterwards is the old balance less the amount, which is then reported as moved |
| BankOperations.WithdrawAllFunds | src/dfautotrans/automation/bank_operations.py:267-412 | an empty account completes at once with nothing moved; otherwise the withdrawal completes exactly when the balance read afterwards is lower, the reported amount being the drop, positive whenever there was money |
| BankOperations.DepositFunds | src/dfautotrans/automation/bank_operations.py:414-551 | an amount above the cash on hand is refused; the deposit completes exactly when both balance reads succeed and the balance rose by at least the amount, the reported amount being the actual rise |
| BankOperations.EnsureMinimumFunds | src/dfautotrans/automation/bank_operations.py:633-676 | corrected (withdrawal checked against a fresh read): unknown cash fails; enough cash completes with nothing moved; cash plus bank short of the requirement is refused; otherwise the result is that of withdrawing exactly the shortfall |
| BankOperations.BalanceAfterAsWritten | src/dfautotrans/automation/bank_operations.py:85-93 | as written, the read after the click answers the cached balance from before it while the cache is younger than 30 seconds, and the page otherwise |
| BankOperations.WithdrawFundsAsWritten | src/dfautotrans/automation/bank_operations.py:176-266 | as written, the withdrawal agrees with the corrected one once the cache has expired, and a completed one moved exactly the amount |
| BankOperations.WithdrawNeverConfirmedWithinCacheAsWritten | src/dfautotrans/automation/bank_operations.py:236-266 | as written, within the cache time no withdrawal of a non-zero amount completes; with page, balance, fit and controls present it fails as unconfirmed |
| BankOperations.WithdrawCacheExample | src/dfautotrans/automation/bank_operations.py:242 | withdrawing 1000 from 5000 with the page then showing 4000 completes when checked against the page, and fails as written |
| BankOperations.EnsureMinimumFundsAsWritten | src/dfautotrans/automation/bank_operations.py:633-676 | as written, the funds check agrees with the corrected one once the cache has expired, and a coverable shortfall goes to the cached withdrawal |
| BankOperations.ShortfallNeverCoveredWithinCacheAsWritten | src/dfautotrans/automation/bank_operations.py:633-676 | as written and within the cache time, the funds check completes exactly when the cash alone covers the requirement |
| BankOperations.EnsureMinimumFundsCovers | src/dfautotrans/automation/bank_operations.py:633-676 | whenever the funds check completes, the cash on hand plus what it withdrew covers the requirement |
| NumberText.ReadGroupedThousands | src/dfautotrans/automation/bank_operations.py:735-746 | an amount written with thousands separators, followed by text that does not continue a group, is matched by `\d{1,3}(?:,\d{3})*` and reads back as that amount |
| InventoryManager.FullTestsAgree | src/dfautotrans/automation/inventory_manager.py:118-125 | the manager's fullness test (used at least total) is the snapshot record's fullness test |
| InventoryManager.SpaceRequirement | src/dfautotrans/automation/inventory_manager.py:347-353 | listings without a quantity need one slot each; listings that all carry quantities of at least one need at least one slot each |
| InventoryManager.SpaceRequirementAppend | src/dfautotrans/automation/inventory_manager.py:347-353 | the space two batches of listings need is the sum of what each needs |
| InventoryManager.SufficientSpaceMatchesAvailable | src/dfautotrans/automation/inventory_manager.py:355-364 | the unclamped free-space test agrees with the snapshot's clamped free count, except for an over-full container asked for nothing, where the test says no and the clamped count says yes |
| InventoryManager.VerifyDeposit | src/dfautotrans/automation/inventory_manager.py:213-249 | verification succeeds exactly when one of the remaining reads, out of three, shows fewer items than before the click, and then the last read made is such a read; a read that raised is retried |
| InventoryManager.DepositAllToStorage | src/dfautotrans/automation/inventory_manager.py:127-253 | without the storage page it fails; an empty inventory succeeds before any click; otherwise it succeeds exactly when the button was found and clicked and a later read, within three, showed fewer items; no read is made unless it clicked |
| InventoryManager.WithdrawLoop | src/dfautotrans/automation/inventory_manager.py:272-317 | at most ten passes; it stops early only on a missing button or a storage count seen at zero, and success always means storage was seen empty; after ten passes the final read decides |
| InventoryManager.WithdrawAllFromStorage | src/dfautotrans/automation/inventory_manager.py:255-326 | without the storage page it fails; empty storage succeeds with no pass; success always means storage was seen empty; when every pass raises, the final read alone decides |
| InventoryManager.OptimizeInventorySpace | src/dfautotrans/automation/inventory_manager.py:400-439 | a non-full inventory needs nothing; a full one with full storage cannot be helped; otherwise the outcome is that of depositing everything |
| InventoryManager.OptimizeNeedsDrop | src/dfautotrans/automation/inventory_manager.py:400-439 | a successful optimisation of a full, non-empty inventory means storage had room and a verification read showed fewer items |
| InventoryManager.SellingSlotsInfo | src/dfautotrans/automation/inventory_manager.py:572-608 | the reading is always plausible (at most 50 slots, current within max); it is the first plausible pair found, or none of 26 when no pair is plausible |
| InventoryManager.Show | src/dfautotrans/automation/inventory_manager.py:27-30 | a single item shows as its name; more than one shows as the name, " x", and digits that read back as the quantity |
| MarketOperations.EnsureMarketplaceSession | src/dfautotrans/automation/market_operations.py:64-111 | off the marketplace with a failed navigation nothing changes; the session is ensured exactly when the page is (or is navigated to) the marketplace and no tab is requested, the remembered tab is the requested one, or a switch to "buy" or "sell" succeeded; afterwards the requested tab is remembered, and a navigation forgets the old one |
| MarketOperations.SessionIsSticky | src/dfautotrans/automation/market_operations.py:78-96 | once a session is ensured, asking again for the same tab while the URL still shows the marketplace succeeds with no navigation and no switch, and changes nothing |
| MarketOperations.PurchaseFrom | src/dfautotrans/automation/market_operations.py:150-177 | the loop makes between one and the maximum passes; it buys only on a confirmed click, gives up at once on an unconfirmed one, and otherwise fails only on the last pass, every earlier pass having failed in a retried way |
| MarketOperations.PurchaseFromBought | src/dfautotrans/automation/market_operations.py:150-177 | the loop buys exactly when some pass within the limit confirms and every pass before it failed in a way that is retried |
| MarketOperations.ExecutePurchase | src/dfautotrans/automation/market_operations.py:140-182 | without the buy tab nothing is tried; at most the retry count of passes are made; the listing is bought exactly when the session holds and some pass confirms after only retried failures |
| MarketOperations.Reply | src/dfautotrans/automation/market_operations.py:146-182 | every reply is a dictionary, and its `success` entry is true exactly when the listing was bought |
| MarketOperations.EveryReplyCountsAsWritten | src/dfautotrans/core/trading_engine.py:337-339 | every reply the purchase returns, including a failed one, passes the engine's as-written success test, though a purchase without a session did not succeed |
| MarketOperations.RowLabel | src/dfautotrans/automation/market_operations.py:614-625 | a present cell is shown stripped; a missing one gets a placeholder longer than its prefix |
| MarketOperations.ListingFromTotal | src/dfautotrans/automation/market_operations.py:610-611 | with a positive quantity, unit price times quantity gives back the row's total; otherwise the unit price is the total; a positive total gives a positive unit price |
| MarketOperations.ExtractItemFromRow | src/dfautotrans/automation/market_operations.py:605-661 | a row gives a listing exactly when its numbers parse, its total price (0 when absent) is positive and its name is not empty; the listing then has a positive unit price, the row's quantity (1 when absent), and a cost equal to the row's total when the quantity is positive |
| MarketOperations.FractionDigits | src/dfautotrans/automation/market_operations.py:1315 | the fraction read is the maximal run of digits after a leading point, or nothing when no digit follows a point |
| MarketOperations.DecimalValue | src/dfautotrans/automation/market_operations.py:1316-1317 | a whole part with a decimal fraction is a non-negative number whose floor is the whole part |
| MarketOperations.ExtractPriceFromText | src/dfautotrans/automation/market_operations.py:1309-1323 | the price is never negative, and its floor is the first run of digits once the text is stripped and '$' and ',' are removed, or 0 when there is none |
| MarketOperations.PriceRoundTrip | src/dfautotrans/automation/market_operations.py:1309-1323 | a price written as '$' and the amount with thousands separators reads back as exactly that amount |
| MarketOperations.DecimalPriceRoundTrip | src/dfautotrans/automation/market_operations.py:1309-1323 | digits, a point and digits read back as that decimal number, whose floor is the whole part |
| MarketOperations.ExtractNumberFromText | src/dfautotrans/automation/market_operations.py:1325-1333 | no number is found exactly when the stripped text holds no digit |
| MarketOperations.NumberRoundTrip | src/dfautotrans/automation/market_operations.py:1325-1333 | a plain decimal numeral reads back as its value |
| MarketOperations.NumberStopsAtSeparator | src/dfautotrans/automation/market_operations.py:1325-1333 | since separators are not removed first, an amount of a thousand or more written with thousands separators reads as a number below a thousand (its leading group) |
| PageNavigator.NavigateToUrl | src/dfautotrans/core/page_navigator.py:41-80 | the navigation succeeds exactly when the page loaded; a load clears both cached reads, a failed load leaves them as they were |
| PageNavigator.RefreshPage | src/dfautotrans/core/page_navigator.py:269-282 | a refresh succeeds exactly when there is a page and it reloaded; success clears both cached reads, failure keeps them |
| PageNavigator.ClearCache | src/dfautotrans/core/page_navigator.py:290-294 | afterwards neither cash nor login status is cached |
| PageNavigator.LoginUrlIffLogin | src/dfautotrans/core/page_navigator.py:131 | a URL is a login page's exactly when it contains "login" in any letter case; the separate automatic-login test adds nothing |
| PageNavigator.FreshLoginStatus | src/dfautotrans/core/page_navigator.py:126-166 | a fresh look says logged in exactly when it did not raise, the page is not a login page showing its form, and the URL is on the game host or a logout link or player information is shown |
| PageNavigator.CheckLoginStatus | src/dfautotrans/core/page_navigator.py:117-166 | without a page the answer is no and nothing is cached; a cached status is returned as is; otherwise the fresh look decides, and with a page the answer given is what is cached afterwards, the cached cash being untouched |
| PageNavigator.EnsureLoggedIn | src/dfautotrans/core/page_navigator.py:168-175 | without a page it fails and changes nothing (the status check says no and `navigate_to_url` raises, lines 43-44); with a page the user is ensured logged in exactly when the status check says so or the login page loads, and a load after a negative check clears the cache |
| PageNavigator.LoginStatusIsCached | src/dfautotrans/core/page_navigator.py:122-124 | a second status read with a page returns the first answer and cache unchanged, whatever the page shows now |
| PageNavigator.NavigationForgetsStatus | src/dfautotrans/core/page_navigator.py:72-74 | after a navigation that loaded, the status is decided by a fresh look again |
| PageNavigator.ExtractNumberFromText | src/dfautotrans/core/page_navigator.py:242-255 | empty text has no number; otherwise the number is the first run of digits once '$', ',' and white space are removed |
| PageNavigator.NumberRoundTrip | src/dfautotrans/core/page_navigator.py:242-255 | '$' followed by an amount with thousands separators reads back as the whole amount |
| PageNavigator.SpacedNumberRoundTrip | src/dfautotrans/core/page_navigator.py:242-255 | white space between the '$' and the amount is removed too, and the amount still reads back whole |
| PageNavigator.FirstElementAmount | src/dfautotrans/core/page_navigator.py:193-202 | an amount is found exactly when some cash element's text holds a number, and it is the number of the first such element |
| PageNavigator.GetCurrentCash | src/dfautotrans/core/page_navigator.py:177-240 | without a page there is no cash; a cached amount is returned as is; otherwise the first element amount, else the script and page-text reading; a found amount is cached, the login status cache is never touched, and nothing found leaves the cache as it was |
| PageNavigator.CashIsCached | src/dfautotrans/core/page_navigator.py:182-184 | once an amount is read, a second read returns it and the same cache whatever the page shows |
| LoginHandler.CooldownRemaining | src/dfautotrans/automation/login_handler.py:426-428 | the remaining cooldown is never negative; it is zero when no login time is recorded (a time of zero counts as none), and otherwise the cooldown less the time since the last login whenever that is positive |
| LoginHandler.CanAttemptIffNoCooldown | src/dfautotrans/automation/login_handler.py:370-383 | an attempt is allowed exactly when attempts remain below the maximum and the reported remaining cooldown is zero |
| LoginHandler.AttemptGateOnlyOpens | src/dfautotrans/automation/login_handler.py:370-383 | `CanAttemptLogin` (`_can_attempt_login`) only opens as time passes for an unchanged gate, and never opens once the attempts reach the maximum |
| LoginHandler.NewGateAllowsLogin | src/dfautotrans/automation/login_handler.py:29-33 | a new handler (no attempts of at most three, no login time, 30-second cooldown) may log in at any time, with no cooldown left |
| LoginHandler.ResetLoginAttempts | src/dfautotrans/automation/login_handler.py:385-388 | the attempt count returns to zero and the login time becomes now; the maximum and the cooldown are kept |
| LoginHandler.ResetStartsCooldown | src/dfautotrans/automation/login_handler.py:370-388 | after a reset at a non-zero time, a later attempt is allowed exactly when the maximum is positive and a full cooldown has passed |
| LoginHandler.ResetLoginState | src/dfautotrans/automation/login_handler.py:432-436 | the attempt count returns to zero and no login time remains; the maximum and the cooldown are kept |
| LoginHandler.ResetStateClearsGate | src/dfautotrans/automation/login_handler.py:370-383 | after a full reset there is no cooldown, and an attempt is allowed exactly when the maximum is positive |
| LoginHandler.GetLoginStatus | src/dfautotrans/automation/login_handler.py:420-430 | the status reports the handler's attempts, maximum and login time, a non-negative remaining cooldown, and may-attempt exactly when attempts remain and no cooldown is left |
| CookieManager.RelevantIffBaseDomain | src/dfautotrans/automation/cookie_manager.py:31-35 | a cookie belongs to the game exactly when its domain contains "deadfrontier.com", since the two longer configured domains contain it |
| CookieManager.RelevantCookies | src/dfautotrans/automation/cookie_manager.py:45-49 | the kept cookies are exactly the given cookies that belong to the game, none added |
| CookieManager.SaveSession | src/dfautotrans/automation/cookie_manager.py:39-88 | nothing is saved exactly when no cookie belongs to the game; otherwise the session holds the game's cookies and the URL, is marked valid, and expires 24 hours after saving |
| CookieManager.SavedSessionLastsADay | src/dfautotrans/automation/cookie_manager.py:295-321 | a session just saved is judged valid exactly until 24 hours after it was saved |
| CookieManager.SessionValidityOnlyExpires | src/dfautotrans/automation/cookie_manager.py:295-321 | `IsSessionValid` (`_is_session_valid`) loses validity only as time passes: valid now means valid at every earlier time, and without an expiry time the verdict does not depend on the time |
| CookieManager.ValidateSession | src/dfautotrans/automation/cookie_manager.py:123-182 | a login URL never validates; otherwise the session is valid exactly when the URL is on the game host and a game indicator shows, or the protected page loaded and landed on the game host without an automatic-login marker |
| BrowserManager.OnConsoleMessage | src/dfautotrans/automation/browser_manager.py:551-555 | a console message adds one to the error count exactly when its type is "error", and changes nothing else |
| BrowserManager.ConsoleErrorsCounted | src/dfautotrans/automation/browser_manager.py:551-555 | over a run of console messages, the error count grows by the number of error messages among them |
| BrowserManager.OnNetworkError | src/dfautotrans/automation/browser_manager.py:557-566 | each failed request appends exactly one record, the failure itself, and changes nothing else |
| BrowserManager.OnPageCrash | src/dfautotrans/automation/browser_manager.py:568-571 | a crash sets the error count to the maximum, so it is at least the maximum, and changes nothing else |
| BrowserManager.ResetErrorCount | src/dfautotrans/automation/browser_manager.py:653-656 | the error count returns to zero, nothing else changing |
| BrowserManager.CrashUntilReset | src/dfautotrans/automation/browser_manager.py:568-591 | for `IsHealthy` (`is_browser_healthy`): after a crash the manager is unhealthy; resetting the count makes a started manager with an answering page healthy again, given a positive maximum |
| BrowserManager.NewMonitorUnhealthy | src/dfautotrans/automation/browser_manager.py:66-76 | a new manager (not started, no page, no errors of at most five) is not healthy |
| BrowserManager.EnsureLoggedIn | src/dfautotrans/automation/browser_manager.py:145-178 | without a page it raises and changes nothing; already logged in it succeeds unchanged; otherwise it succeeds exactly when a handler is given and its login succeeds, and only a success marks the manager logged in |
| BrowserManager.ParseInt | src/dfautotrans/automation/browser_manager.py:362-363 | like Python's `int`, text that strips to nothing or holds no digit does not parse |
| BrowserManager.ParseNegative | src/dfautotrans/automation/browser_manager.py:362-363 | a minus sign before digits parses as the negated value of the digits |
| BrowserManager.ParseIntRoundTrip | src/dfautotrans/automation/browser_manager.py:362-363 | a natural number written in decimal parses back as itself |
| BrowserManager.SplitNameQuantity | src/dfautotrans/automation/browser_manager.py:358-366 | a name without both parentheses, or whose first parenthesised text does not parse, keeps its stripped self and quantity one; otherwise the quantity is the parsed text and the name is the stripped text before the first '(' |
| BrowserManager.SplitNameIsStripped | src/dfautotrans/automation/browser_manager.py:364-369 | the name that comes out has no white space at either end, so the second strip changes nothing |
| BrowserManager.SplitRoundTrip | src/dfautotrans/automation/browser_manager.py:358-366 | a stripped name without parentheses, followed by " (", a number and ")", splits back into exactly that name and number |
| TradingLogger.AppendShares | src/dfautotrans/utils/trading_logger.py:280-306 | appending one transaction moves the successful-purchase and successful-sale counts and sums by exactly that transaction's share |
| TradingLogger.StartCycle | src/dfautotrans/utils/trading_logger.py:136-149 | a new cycle starts with no transactions and no errors, marked successful, with totals matching its (empty) transactions; the stage start is untouched |
| TradingLogger.EndCycle | src/dfautotrans/utils/trading_logger.py:151-173 | with no cycle nothing happens; otherwise the record handed back is the cycle with its end time, duration and success set and net profit equal to earned less spent, and no cycle is in progress afterwards |
| TradingLogger.NetProfitFromTransactions | src/dfautotrans/utils/trading_logger.py:325-331 | for a ledger that kept its totals, the closed cycle's net profit is what its successful sales earned less what its successful purchases cost |
| TradingLogger.StartStage | src/dfautotrans/utils/trading_logger.py:175-178 | the stage start becomes now and the cycle is untouched |
| TradingLogger.EndStage | src/dfautotrans/utils/trading_logger.py:180-204 | without a stage start or a cycle nothing changes; otherwise the stage start is cleared, the duration since it is written under the stage's name only when the name is one of the six known stages, and nothing else in the cycle changes |
| TradingLogger.RecordResourceSnapshot | src/dfautotrans/utils/trading_logger.py:206-216 | without a cycle, or under a label other than "before" or "after", nothing changes; otherwise the snapshot replaces exactly the labelled one |
| TradingLogger.Record | src/dfautotrans/utils/trading_logger.py:260-306 | with a cycle, the transaction is appended whatever its outcome, and a ledger whose totals matched its transactions still does; without one nothing changes |
| TradingLogger.RecordPurchase | src/dfautotrans/utils/trading_logger.py:260-282 | with a cycle, exactly one transaction is appended; the purchase count and the amount spent grow only on success, by one and by the total price; the sales totals are untouched; without a cycle nothing changes |
| TradingLogger.RecordSale | src/dfautotrans/utils/trading_logger.py:284-306 | with a cycle, exactly one transaction is appended; the sale count and the amount earned grow only on success, by one and by the total price; the purchase totals are untouched; without a cycle nothing changes |
| TradingLogger.RecordWithdrawal | src/dfautotrans/utils/trading_logger.py:226-241 | with a cycle, exactly one transaction is appended and no purchase or sale total moves; without one nothing changes |
| TradingLogger.RecordStorageOperation | src/dfautotrans/utils/trading_logger.py:243-258 | with a cycle, exactly one transaction is appended and neither count moves; without one nothing changes |
| TradingLogger.ErrorMessage | src/dfautotrans/utils/trading_logger.py:314 | with no stage the message is kept as it is; with one it is the stage in brackets, a space, then the message |
| TradingLogger.RecordError | src/dfautotrans/utils/trading_logger.py:312-318 | with a cycle, exactly the formatted message is appended to its errors; without one nothing changes |
| TradingLogger.LedgerStaysConsistent | src/dfautotrans/utils/trading_logger.py:260-306 | whatever transactions are recorded, in any order and with any outcomes, the totals keep matching the successful purchases and sales |
| TradingLogger.RecordAll | src/dfautotrans/utils/trading_logger.py:260-306 | recording a run of transactions with a cycle appends exactly that run, in order; without one nothing changes |
| ListingHelpers.FirstReplacementSpec | debug_listing_test.py:42-46 | the variant lookup finds nothing exactly when no variant occurs in the name, and otherwise gives the name of the first variant, in table order, that occurs |
| ListingHelpers.NormalizeIdempotent | debug_listing_test.py:26-46 | normalising an already normalised name changes nothing |
| ListingHelpers.NormalFixed | debug_listing_test.py:26-46 | `NormalizeItemName` leaves a stripped, lower-case name alone when its first matching variant (if any) stands for the name itself |
| ListingHelpers.ReplacementValuesFixed | debug_listing_test.py:32-40 | every name a variant stands for normalises to itself |
| ListingHelpers.MatchWith | debug_listing_test.py:56-79 | an inventory item's match is the first target, in order, whose normalised name equals or contains or is contained in the item's; it is exact exactly when the normalised names are equal; no match exactly when no target is related |
| ListingHelpers.FindMatchesWith | debug_listing_test.py:49-81 | the number of matches is the number of inventory items that have a match, so never more than the items; which match stands where is stated by `ListingHelpers.FindMatchesComplete` |
| ListingHelpers.FindMatchesSound | debug_listing_test.py:56-79 | every reported match belongs to an inventory item and is that item's first match |
| ListingHelpers.FindMatches | debug_listing_test.py:49-81 | with names normalised, every match is an inventory item's first match; and every item that has a match appears, at the position given by the number of matching items before it, so the matches keep inventory order and miss none |
| ListingHelpers.FindMatchesComplete | debug_listing_test.py:56-79 | an item with a match appears in the matches, at the index given by the number of matching items before it |
| ListingHelpers.BaseUnitPrice | debug_listing_test.py:107-116 | the unit price is that of the first fragment occurring in the name, or 5.0 when none occurs; it is positive when every listed price is |
| ListingHelpers.BaseUnitPriceFirstFragment | debug_listing_test.py:107-116 | when the k-th fragment is the first one the name contains, the unit price is that fragment's price |
| ListingHelpers.ListingUnitPrice | debug_listing_test.py:89-116 | the unit price used for a listing is always positive |
| ListingHelpers.MarkedUpTotal | debug_listing_test.py:119-120 | for a non-negative unit price and quantity, the total is the marked-up amount (price times quantity times 1.2) rounded down to whole dollars |
| ListingHelpers.ListingPriceTruncates | debug_listing_test.py:84-120 | the listing price is the item's unit price times the quantity times 1.2, rounded down to whole dollars |
| ListingHelpers.CalculateListingPrice | debug_listing_test.py:84-128 | the listing price of a non-negative quantity is never negative; `ListingPriceTruncates` gives its exact value |
| ListingHelpers.UnknownItemPrice | debug_listing_test.py:114-120 | an item whose normalised name contains no priced fragment lists at exactly six dollars a unit |
| ListingHelpers.ListingPriceMonotone | debug_listing_test.py:84-120 | listing more units of an item never lists for less |

## Left out

- Browser work is not modelled: selectors, clicks, typing, login forms, iframes, fancybox closing and screenshots. Its results are parameters: page text, balances read, purchase replies and handler outcomes.
- `asyncio.sleep` pauses and `automation/anti_detection.py` are left out. They only pace the bot with random delays.
- The database, the logger sinks and all JSON file access are left out. This covers `load_session`, the cookie file, the configuration file, `_save_cycle_to_json` and `get_session_summary`. All of them are external storage.
- Clock and timezone reads are not modelled. The current time is a parameter. "Peak hours" is a flag plus a multiplier, because `SellingConfig` does not declare the `peak_hours_*` fields that `_is_us_peak_hours` reads.
- Floating-point rounding is not modelled, because reals are exact. Where the code truncates a float product with `int()`, binary rounding can make the source's answer one lower than the exact one; the members below say where.
- SellingStrategy.SellLimit: `int(total_selling_slots * selling_threshold)` (selling_strategy.py:128) is taken on the exact product; in binary floating point a product such as `50 * 0.58` is just below 29 and truncates to 28, so the source's limit can be one lower.
- SellingStrategy.SpaceToClear: the pressure threshold `int(max_inventory_slots * inventory_threshold)` (selling_strategy.py:325) is taken on the exact product and can be one higher than the source's for the same reason.
- ListingHelpers.MarkedUpTotal: the total `int(price * quantity * 1.2)` is taken on the exact product; the source's float product can truncate to one dollar less.
- StateMachine.WaitRemaining: the remaining time is an exact real; the source's `total_seconds()` float can truncate differently at a whole-second boundary.
- TradingConfig.SetNestedValue: a float written to an int field, and a list, map or pair written to a scalar field (or a scalar to a list field), keep the old value; Python's `setattr` would store the ill-typed value, which the model's typed records cannot hold. A section replaced by a plain value keeps its last fields in the model, marked as replaced, where Python holds the plain value; the answer and every later write are modelled, but the readers that take a configuration (`GetItemMaxPrice`, `GetItemPriority`, `IsTargetItem`, `ValidateConfig`) still see the old fields.
- TradingConfig.UpdateConfig: inherits the typed writes of `SetNestedValue`, so an ill-typed update leaves the field's old value rather than storing it; after a selling or performance section is replaced the answer is True as in Python, but the stored settings keep that section's old fields.
- Python's `lower`, `strip`, `\s` and `\d` are modelled over ASCII only.
- `get_current_cash` reads the page with a script and several text patterns. Their combined result is one input, and only the caching, the plausibility range and the first-match rule are modelled.
- `deposit_all_funds`, `get_player_resources` and `get_total_available_funds` in `bank_operations.py` are not modelled. They only sequence page reads and the operations that are modelled.
- `get_inventory_items` and `_parse_item_element` in `inventory_manager.py` are not modelled. They walk DOM elements; the item list they return is an input.
- PageNavigator.NavigateToUrl: the `NavigationError` raised without a page is not part of this member, whose callers only reach it with a page; `EnsureLoggedIn` models that raise as a failure that changes nothing.
- The `base_price_map` parameter of `calculate_listing_price` is unused by the code, so the model drops it.
- There is no exponential-backoff scheduler and no hourly rate limiter. `exponential_backoff` and `max_operations_per_hour` are only declared or printed, so nothing models them.
- `SystemResources` is not defined in `data/models.py`. It is declared from its use in `core/trading_engine.py`. Its free-space counts are clamped at zero like those of the other status records.
- BrowserManager.ParseIntRoundTrip: states the round trip for natural numbers only; a leading minus sign is covered separately by `BrowserManager.ParseNegative`.
- BrowserManager.ParseInt: reads an optional sign and ASCII digits after stripping; the underscores and non-ASCII digits that Python's `int()` also accepts are not modelled.

## Findings

Each row shows a place where the code does not do what its surroundings evidently mean. The as-written member models the code as it stands, and a lemma exhibits the discrepancy. The corrected member is what the rest of the model uses.

| source | as written | input that shows it | evidently intended | confidence | as-written member | corrected member |
|---|---|---|---|---|---|---|
| src/dfautotrans/core/trading_engine.py:337-339 | the buying loop tests the dictionary returned by `execute_purchase`, which is never empty, so a purchase whose `success` is false is recorded and paid for | a first reply with `success` false | only replies whose `success` entry is true count as purchases | not executed | TradingEngine.FailedPurchaseCountedAsWritten | TradingEngine.BuyingPhase |
| src/dfautotrans/strategies/selling_strategy.py:49-52 | `_calculate_selling_price` reads `peak_hours_enabled`, which `SellingConfig` does not declare, outside its `try`; every configured item raises and gets no sell order | any inventory item whose name is a configured target | configured items are priced from their ceiling and markup | not executed | SellingStrategy.ConfiguredItemsNeverListedAsWritten | SellingStrategy.EvaluateSellingItem |
| src/dfautotrans/strategies/selling_strategy.py:129-140 | the slot limit can be negative, and slicing with it drops orders from the end instead of keeping none | 25 of 26 slots used, default 95% threshold, three sellable items: two orders are planned | a limit at or below zero plans no orders | not executed | SellingStrategy.NegativeLimitOverfillsAsWritten | SellingStrategy.PlanSellingStrategy |
| src/dfautotrans/core/trading_engine.py:235-239 | after withdrawing everything, only the cash is read again and the total adds the bank balance read before the withdrawal | cash 0 and bank 5000: the snapshot reports 10000 of funds while the player holds 5000 (as the file stands the resource check above fails first, so the phase is only reached once that is corrected) | the total is the cash plus the bank balance after the withdrawal | not executed | TradingEngine.StaleBankDoubleCountsAsWritten | TradingEngine.WithdrawStep |
| src/dfautotrans/core/trading_engine.py:207-227 | the resource check reads `current_count` and `max_capacity` from the inventory and storage reads, which are dictionaries keyed `used` and `total`; the error is caught and the check always fails | any reads at all | the counts are taken from the `used` and `total` entries | not executed | TradingEngine.ResourceCheckAsWritten | TradingEngine.ResourceCheck |
| src/dfautotrans/automation/bank_operations.py:242 | after the click, `withdraw_funds` reads the balance through `get_bank_balance`, whose 30-second cache (lines 39, 91-93, 752-758) still holds the balance read just before; nothing clears it, so the new balance always equals the old one | withdraw 1000 from 5000 with the page then showing 4000: reported as not confirmed | the check reads the page again, as `withdraw_all_funds` and `deposit_funds` do by clearing the cache first | not executed | BankOperations.WithdrawNeverConfirmedWithinCacheAsWritten | BankOperations.WithdrawFunds |
| src/dfautotrans/strategies/selling_strategy.py:354-356 | the clearing candidates price every item with `_calculate_selling_price`, which raises for configured items (lines 49-52); the per-item `except` swallows it, so configured stacks are never offered for clearing | one stack of a configured item when space is needed: no candidate | configured stacks are candidates like any other | not executed | SellingStrategy.ConfiguredStackNeverClearedAsWritten | SellingStrategy.ShouldClearInventorySpace |
