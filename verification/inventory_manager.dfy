/** Inventory and storage: the space tests, the deposit-everything and
    withdraw-everything operations with their before/after verification,
    the selling-slot read, and how an inventory item is shown. The page
    reads each operation makes are inputs. */
module InventoryManager {
  import opened Common
  import opened Text
  import opened NumberText
  import opened Models

  /** What the status reads report: slots used and slots in total. When
      the page cannot be read they report 0 used of 26 (inventory) or of 40
      (storage). */
  datatype ContainerStatus = ContainerStatus(used: nat, total: nat)

  const DefaultInventoryStatus: ContainerStatus := ContainerStatus(0, 26)
  const DefaultStorageStatus: ContainerStatus := ContainerStatus(0, 40)

  /** `check_inventory_full`. */
  predicate CheckInventoryFull(status: ContainerStatus)
  {
    status.used >= status.total
  }

  /** The status read and the snapshot record agree on fullness. */
  lemma FullTestsAgree(status: ContainerStatus)
    ensures CheckInventoryFull(status) <==> Occupancy(status.used, status.total).IsFull()
  {
  }

  /** A market listing as `calculate_space_requirements` sees it: its
      quantity, when the listing has one. */
  function SpaceRequirement(quantities: seq<Option<int>>): (total: int)
    ensures (forall k :: 0 <= k < |quantities| ==> quantities[k].None?) ==> total == |quantities|
    ensures (forall k :: 0 <= k < |quantities| ==> quantities[k].Some? && quantities[k].value >= 1) ==> total >= |quantities|
  {
    if |quantities| == 0 then 0
    else (match quantities[0] case None => 1 case Some(q) => q) + SpaceRequirement(quantities[1..])
  }

  /** The requirement of two batches of listings is the sum of theirs. */
  lemma {:induction false} SpaceRequirementAppend(a: seq<Option<int>>, b: seq<Option<int>>)
    ensures SpaceRequirement(a + b) == SpaceRequirement(a) + SpaceRequirement(b)
  {
    if |a| > 0 {
      assert (a + b)[1..] == a[1..] + b;
      SpaceRequirementAppend(a[1..], b);
    } else {
      assert a + b == b;
    }
  }

  /** `has_sufficient_space`: free slots (total less used, which can be
      negative) at least the requirement. */
  predicate HasSufficientSpace(status: ContainerStatus, required: int)
  {
    status.total - status.used >= required
  }

  /** The test agrees with the snapshot's clamped free count except for an
      over-full container asked for nothing, where the clamped count says
      yes and the test says no. */
  lemma SufficientSpaceMatchesAvailable(status: ContainerStatus, required: int)
    ensures status.used <= status.total || required > 0 ==>
              (HasSufficientSpace(status, required) <==> Occupancy(status.used, status.total).Available() >= required)
    ensures status.used > status.total && required == 0 ==>
              !HasSufficientSpace(status, required) && Occupancy(status.used, status.total).Available() >= required
  {
  }

  // ---------------------------------------------------------------------
  // Deposit everything into storage

  /** How far `deposit_all_to_storage` gets before it verifies: the
      storage page was reached, an enabled deposit button was found, and one
      of the click methods went through. */
  datatype DepositSetup = DepositSetup(navigated: bool, buttonFound: bool, clicked: bool)

  /** What the deposit reports, and how many verification reads it made. */
  datatype Verified = Verified(ok: bool, checks: nat)

  /** Number of verification reads after the click. */
  const DepositVerifications: nat := 3

  /** The verification loop: succeed at the first read below the used count
      before the click; a read that shows no drop, or that raised (`None`),
      is retried until the three reads are spent. */
  function VerifyDeposit(initialUsed: nat, probes: nat -> Option<nat>, attempt: nat): (r: Verified)
    requires attempt <= DepositVerifications
    ensures attempt <= r.checks <= DepositVerifications
    ensures r.ok <==> exists k :: attempt <= k < DepositVerifications && probes(k).Some? && probes(k).value < initialUsed
    ensures r.ok ==> r.checks > 0 && probes(r.checks - 1).Some? && probes(r.checks - 1).value < initialUsed
    decreases DepositVerifications - attempt
  {
    if attempt == DepositVerifications then Verified(false, attempt)
    else if probes(attempt).Some? && probes(attempt).value < initialUsed then Verified(true, attempt + 1)
    else VerifyDeposit(initialUsed, probes, attempt + 1)
  }

  /** `deposit_all_to_storage`: an empty inventory needs nothing and
      succeeds before any click; otherwise success means a later read
      showed fewer items in the inventory, within three reads. (The
      separate test for a read of zero cannot be reached: zero is below any
      non-empty count.) */
  function DepositAllToStorage(setup: DepositSetup, initialUsed: nat, probes: nat -> Option<nat>): (r: Verified)
    ensures setup.navigated && initialUsed == 0 ==> r == Verified(true, 0)
    ensures r.checks <= DepositVerifications
    ensures r.ok <==> setup.navigated
                      && (initialUsed == 0
                          || (setup.buttonFound && setup.clicked
                              && exists k :: 0 <= k < DepositVerifications && probes(k).Some? && probes(k).value < initialUsed))
    ensures r.checks > 0 ==> setup.navigated && setup.buttonFound && setup.clicked && initialUsed > 0
  {
    if !setup.navigated then Verified(false, 0)
    else if initialUsed == 0 then Verified(true, 0)
    else if !setup.buttonFound || !setup.clicked then Verified(false, 0)
    else VerifyDeposit(initialUsed, probes, 0)
  }

  // ---------------------------------------------------------------------
  // Withdraw everything from storage

  /** One pass of the withdraw loop: the button was missing; it was
      disabled, and the storage count read then; it was clicked, and the
      storage count read after; or the pass raised. */
  datatype WithdrawAttempt = ButtonMissing | Disabled(storageUsed: nat) | Clicked(storageUsed: nat) | AttemptRaised

  /** Passes of the withdraw loop before the final check. */
  const WithdrawAttempts: nat := 10

  datatype WithdrawRun = WithdrawRun(ok: bool, attempts: nat, storageUsed: nat)

  /** The withdraw loop from pass `k`, with `used` the last storage count
      that was seen to drop. A click counts only when it lowers that count;
      the loop ends early when storage is seen empty or the button is gone,
      and after ten passes a final read decides. */
  function WithdrawLoop(used: nat, attempts: nat -> WithdrawAttempt, finalUsed: nat, k: nat): (r: WithdrawRun)
    requires k <= WithdrawAttempts
    ensures k <= r.attempts <= WithdrawAttempts
    ensures r.storageUsed <= used || r.storageUsed == finalUsed
    ensures r.ok ==> r.storageUsed == 0
    ensures r.attempts < WithdrawAttempts ==> attempts(r.attempts).ButtonMissing? || r.ok
    ensures r.ok && r.attempts < WithdrawAttempts ==> attempts(r.attempts) in {Disabled(0), Clicked(0)}
    ensures r.attempts == WithdrawAttempts ==> r.ok == (finalUsed == 0)
    ensures forall j :: k <= j < r.attempts ==> !attempts(j).ButtonMissing?
    decreases WithdrawAttempts - k
  {
    if k == WithdrawAttempts then WithdrawRun(finalUsed == 0, k, finalUsed)
    else match attempts(k)
      case ButtonMissing => WithdrawRun(false, k, used)
      case Disabled(now) =>
        if now == 0 then WithdrawRun(true, k, 0)
        else WithdrawLoop(used, attempts, finalUsed, k + 1)
      case Clicked(now) =>
        if now < used then
          if now == 0 then WithdrawRun(true, k, 0)
          else WithdrawLoop(now, attempts, finalUsed, k + 1)
        else WithdrawLoop(used, attempts, finalUsed, k + 1)
      case AttemptRaised => WithdrawLoop(used, attempts, finalUsed, k + 1)
  }

  /** `withdraw_all_from_storage`: empty storage succeeds at once; otherwise
      at most ten passes, and success only once storage is seen empty. */
  function WithdrawAllFromStorage(navigated: bool, initialUsed: nat, attempts: nat -> WithdrawAttempt, finalUsed: nat): (r: WithdrawRun)
    ensures !navigated ==> !r.ok && r.attempts == 0
    ensures navigated && initialUsed == 0 ==> r.ok && r.attempts == 0
    ensures r.attempts <= WithdrawAttempts
    ensures r.ok ==> r.storageUsed == 0
    ensures navigated && initialUsed > 0 && (forall j :: 0 <= j < WithdrawAttempts ==> attempts(j).AttemptRaised?) ==>
              r.attempts == WithdrawAttempts && r.ok == (finalUsed == 0)
  {
    if !navigated then WithdrawRun(false, 0, initialUsed)
    else if initialUsed == 0 then WithdrawRun(true, 0, 0)
    else WithdrawLoop(initialUsed, attempts, finalUsed, 0)
  }

  // ---------------------------------------------------------------------
  // Making room

  /** `optimize_inventory_space`: nothing to do unless the inventory is
      full; nothing possible when storage is full too; otherwise the
      outcome of depositing everything. */
  function OptimizeInventorySpace(inventory: ContainerStatus, storage: ContainerStatus,
                                  setup: DepositSetup, probes: nat -> Option<nat>): (r: bool)
    ensures !CheckInventoryFull(inventory) ==> r
    ensures CheckInventoryFull(inventory) && storage.used >= storage.total ==> !r
    ensures CheckInventoryFull(inventory) && storage.used < storage.total ==>
              r == DepositAllToStorage(setup, inventory.used, probes).ok
  {
    if !CheckInventoryFull(inventory) then true
    else if storage.used >= storage.total then false
    else DepositAllToStorage(setup, inventory.used, probes).ok
  }

  /** A full inventory with a positive count needs a verified drop in the
      inventory count for the optimisation to succeed. */
  lemma OptimizeNeedsDrop(inventory: ContainerStatus, storage: ContainerStatus,
                          setup: DepositSetup, probes: nat -> Option<nat>)
    requires CheckInventoryFull(inventory) && inventory.used > 0
    requires OptimizeInventorySpace(inventory, storage, setup, probes)
    ensures storage.used < storage.total
    ensures exists k :: 0 <= k < DepositVerifications && probes(k).Some? && probes(k).value < inventory.used
  {
  }

  // ---------------------------------------------------------------------
  // Selling slots

  /** Most selling slots a plausible reading may show. */
  const MaxPlausibleSlots: nat := 50

  /** A `current/max` pair found in the page text. */
  datatype SlotReading = SlotReading(current: nat, max: nat)

  predicate PlausibleSlots(s: SlotReading)
  {
    s.max <= MaxPlausibleSlots && s.current <= s.max
  }

  /** The default when no plausible reading is found: none of 26 in use. */
  const DefaultSlots: SlotReading := SlotReading(0, 26)

  /** `_extract_selling_slots_info` over the pairs its patterns found, in
      pattern order: the first plausible one, else the default. */
  function SellingSlotsInfo(found: seq<SlotReading>): (r: SlotReading)
    ensures PlausibleSlots(r)
    ensures r in found || r == DefaultSlots
    ensures (forall k :: 0 <= k < |found| ==> !PlausibleSlots(found[k])) ==> r == DefaultSlots
    ensures (exists k :: 0 <= k < |found| && PlausibleSlots(found[k])) ==>
              exists k :: 0 <= k < |found| && found[k] == r && forall j :: 0 <= j < k ==> !PlausibleSlots(found[j])
  {
    if |found| == 0 then DefaultSlots
    else if PlausibleSlots(found[0]) then found[0]
    else
      var r := SellingSlotsInfo(found[1..]);
      assert forall k :: 1 <= k < |found| ==> found[k] == found[1..][k - 1];
      if exists k :: 0 <= k < |found| && PlausibleSlots(found[k]) then
        var k :| 0 <= k < |found| && PlausibleSlots(found[k]);
        assert PlausibleSlots(found[1..][k - 1]);
        var j :| 0 <= j < |found[1..]| && found[1..][j] == r && forall i :: 0 <= i < j ==> !PlausibleSlots(found[1..][i]);
        assert found[j + 1] == r;
        r
      else
        r
  }

  // ---------------------------------------------------------------------
  // Showing an item

  /** An inventory item: slot, type key, display name and quantity. */
  datatype InventoryItem = InventoryItem(slot: int, itemType: string, name: string, quantity: int)

  /** `InventoryItem.__str__`: the name, followed by " x" and the quantity
      when there is more than one. */
  function Show(item: InventoryItem): (r: string)
    ensures item.quantity <= 1 ==> r == item.name
    ensures item.quantity > 1 ==> |r| > |item.name| + 2 && r[..|item.name|] == item.name
                                  && r[|item.name|..|item.name| + 2] == " x"
                                  && ReadFirstNumber(r[|item.name| + 2..]) == Some(item.quantity)
  {
    if item.quantity > 1 then
      var digits := NatToString(item.quantity);
      var r := item.name + " x" + digits;
      assert r[|item.name| + 2..] == digits;
      ReadAllDigits(digits);
      DigitsRoundTrip(item.quantity);
      r
    else item.name
  }
}
