/** The bank page: reading the balance and the cash on hand out of page text,
    and the checks around withdrawals and deposits. What the page shows
    before and after a button press is an input; each operation decides,
    from those reads alone, whether it refuses, and whether the balance
    moved the way the operation expects. */
module BankOperations {
  import opened Common
  import opened Text
  import opened NumberText

  // ---------------------------------------------------------------------
  // Reading the bank balance

  /** What may stand between a label and its amount. */
  datatype Separator = Spaces | ColonsOrSpaces

  /** A case-insensitive label, separators, an optional `$`, then an amount
      written with thousands separators. */
  datatype AmountPattern = AmountPattern(caption: string, sep: Separator)

  predicate IsSeparator(sep: Separator, c: char)
  {
    match sep
    case Spaces => IsSpace(c)
    case ColonsOrSpaces => c == ':' || IsSpace(c)
  }

  /** The four balance patterns, in the order they are tried (labels in
      lower case, since matching ignores case). */
  const BankPatterns: seq<AmountPattern> := [
    AmountPattern("bank:", Spaces),
    AmountPattern("銀行:", Spaces),
    AmountPattern("bank", ColonsOrSpaces),
    AmountPattern("bank balance", ColonsOrSpaces)
  ]

  /** The first position at or after `i` whose character is not a separator. */
  function SkipSeparators(s: string, i: nat, sep: Separator): (j: nat)
    requires i <= |s|
    ensures i <= j <= |s|
    ensures forall k :: i <= k < j ==> IsSeparator(sep, s[k])
    ensures j == |s| || !IsSeparator(sep, s[j])
    decreases |s| - i
  {
    if i < |s| && IsSeparator(sep, s[i]) then SkipSeparators(s, i + 1, sep) else i
  }

  /** The amount `p` matches when the match starts at position `i`. The
      separator run and the optional `$` are taken greedily; neither a
      separator nor `$` is a digit, so no other split of the text matches. */
  function MatchAt(text: string, p: AmountPattern, i: nat): (r: Option<nat>)
  {
    if !OccursAt(Lower(text), p.caption, i) then None
    else
      var j := SkipSeparators(text, i + |p.caption|, p.sep);
      var k := if j < |text| && text[j] == '$' then j + 1 else j;
      ReadGrouped(text[k..])
  }

  /** `re.search`: the leftmost position from `from` on where `p` matches. */
  function SearchFrom(text: string, p: AmountPattern, from: nat): (pos: int)
    requires from <= |text| + 1
    ensures pos == -1 || from <= pos <= |text|
    ensures pos == -1 ==> forall i :: from <= i <= |text| ==> MatchAt(text, p, i).None?
    ensures pos >= 0 ==> MatchAt(text, p, pos).Some? && forall i :: from <= i < pos ==> MatchAt(text, p, i).None?
    decreases |text| + 1 - from
  {
    if from > |text| then -1
    else if MatchAt(text, p, from).Some? then from
    else SearchFrom(text, p, from + 1)
  }

  /** The first of `patterns` that matches somewhere, and its amount. */
  function FirstPatternAmount(text: string, patterns: seq<AmountPattern>): (r: Option<nat>)
    ensures r.None? <==> forall q, i | q in patterns && 0 <= i <= |text| :: MatchAt(text, q, i).None?
    ensures r.Some? ==> exists q, i | q in patterns && 0 <= i <= |text| :: MatchAt(text, q, i) == r
  {
    if |patterns| == 0 then None
    else
      var pos := SearchFrom(text, patterns[0], 0);
      if pos >= 0 then MatchAt(text, patterns[0], pos)
      else
        var rest := FirstPatternAmount(text, patterns[1..]);
        assert forall q | q in patterns :: q == patterns[0] || q in patterns[1..];
        rest
  }

  /** `_extract_bank_balance_from_text`: nothing for empty text, otherwise
      the amount of the first pattern that matches, commas removed. */
  function ExtractBankBalance(text: string): (r: Option<nat>)
    ensures |text| == 0 ==> r.None?
    ensures |text| > 0 ==> r == FirstPatternAmount(text, BankPatterns)
  {
    if |text| == 0 then None else FirstPatternAmount(text, BankPatterns)
  }

  /** "Bank: $" followed by any amount the game prints reads back as that
      amount. */
  lemma BankBalanceRoundTrip(n: nat)
    ensures ExtractBankBalance("Bank: $" + Thousands(n)) == Some(n)
  {
    var t := "Bank: $" + Thousands(n);
    var p := BankPatterns[0];
    assert Lower(t)[..5] == "bank:";
    assert OccursAt(Lower(t), p.caption, 0);
    assert t[5] == ' ' && t[6] == '$';
    assert SkipSeparators(t, 6, Spaces) == 6;
    assert SkipSeparators(t, 5, Spaces) == 6;
    assert t[7..] == Thousands(n) + [];
    ReadGroupedThousands(n, []);
    assert MatchAt(t, p, 0) == Some(n);
    assert SearchFrom(t, p, 0) == 0;
  }

  // ---------------------------------------------------------------------
  // Reading the cash on hand

  /** The largest cash figure accepted as plausible. */
  const MaxPlausibleCash: nat := 10000000

  /** The value of a `[\d,]+` match once its commas are gone; `None` where
      Python's `int` raises (nothing left, or something that is not a digit). */
  function CashValue(candidate: string): (r: Option<nat>)
    ensures r.Some? <==> |Without(candidate, IsComma)| > 0 && AllDigits(Without(candidate, IsComma))
    ensures r.Some? ==> r.value == DigitsValue(Without(candidate, IsComma))
  {
    var d := Without(candidate, IsComma);
    if |d| > 0 && AllDigits(d) then Some(DigitsValue(d)) else None
  }

  predicate Plausible(candidate: string)
  {
    CashValue(candidate).Some? && CashValue(candidate).value <= MaxPlausibleCash
  }

  /** The cash scan of `get_cash_on_hand` over the amounts its patterns found,
      in pattern order: the first one that reads as a number within
      0..10,000,000. */
  function FirstPlausibleCash(candidates: seq<string>): (r: Option<nat>)
    ensures r.Some? ==> r.value <= MaxPlausibleCash
    ensures r.None? <==> forall k :: 0 <= k < |candidates| ==> !Plausible(candidates[k])
    ensures r.Some? ==> exists k :: 0 <= k < |candidates| && Plausible(candidates[k])
                         && CashValue(candidates[k]) == r
                         && forall j :: 0 <= j < k ==> !Plausible(candidates[j])
  {
    if |candidates| == 0 then None
    else if Plausible(candidates[0]) then CashValue(candidates[0])
    else
      var r := FirstPlausibleCash(candidates[1..]);
      if r.Some? then
        var k :| 0 <= k < |candidates[1..]| && Plausible(candidates[1..][k]) && CashValue(candidates[1..][k]) == r
                 && forall j :: 0 <= j < k ==> !Plausible(candidates[1..][j]);
        assert forall j :: 0 <= j < k + 1 ==> !Plausible(candidates[j]) by {
          forall j | 0 <= j < k + 1 ensures !Plausible(candidates[j]) {
            if j > 0 { assert candidates[j] == candidates[1..][j - 1]; }
          }
        }
        r
      else
        assert forall k :: 1 <= k < |candidates| ==> candidates[k] == candidates[1..][k - 1];
        r
  }

  // ---------------------------------------------------------------------
  // Withdrawals and deposits

  /** Why a bank operation did not complete. */
  datatype BankFailure =
    | PageUnavailable   // the bank page could not be reached
    | BalanceUnknown    // the balance could not be read
    | CashUnknown       // the cash on hand could not be read
    | ExceedsBalance    // asked to withdraw more than the bank holds
    | ExceedsCash       // asked to deposit more than the cash on hand
    | InsufficientFunds // cash and bank together fall short
    | ControlsMissing   // an input field or button was missing, or the page raised
    | NotConfirmed      // the balance read afterwards did not move as expected

  /** `BankOperationResult`: a completed operation with the amount moved and
      the bank balance (or, for a no-op funds check, the cash) before and
      after; or a failure. */
  datatype BankOutcome = Completed(amount: int, before: int, after: int) | Failed(reason: BankFailure)

  /** What one visit to the bank page shows: whether the page was reached,
      the balance before, whether the controls were found and used, and the
      balance read afterwards. */
  datatype BankVisit = BankVisit(reached: bool, balance: Option<nat>, controls: bool, balanceAfter: Option<nat>)

  /** `withdraw_funds` with the balance cache cleared before the check
      after the click, as `withdraw_all_funds` and `deposit_funds` do:
      refuse without touching the controls when the amount exceeds the
      balance; after the click, succeed exactly when the balance read
      afresh dropped by the amount. */
  function WithdrawFunds(amount: int, v: BankVisit): (r: BankOutcome)
    ensures !v.reached ==> r == Failed(PageUnavailable)
    ensures v.reached && v.balance.Some? && amount > v.balance.value ==> r == Failed(ExceedsBalance)
    ensures r.Completed? <==> v.reached && v.balance.Some? && amount <= v.balance.value && v.controls
                              && v.balanceAfter == Some(v.balance.value - amount)
    ensures r.Completed? ==> r.amount == amount && r.before - r.after == amount && r.before == v.balance.value
  {
    if !v.reached then Failed(PageUnavailable)
    else if v.balance.None? then Failed(BalanceUnknown)
    else if amount > v.balance.value then Failed(ExceedsBalance)
    else if !v.controls then Failed(ControlsMissing)
    else if v.balanceAfter.Some? && v.balanceAfter.value == v.balance.value - amount then
      Completed(amount, v.balance.value, v.balanceAfter.value)
    else Failed(NotConfirmed)
  }

  /** `withdraw_all_funds`: an empty account completes at once with nothing
      moved; otherwise the operation completes when the balance read
      afterwards is lower, reporting the drop as the amount. (A second
      test for a zero balance afterwards can never be reached: a balance
      that was positive and is now zero has dropped.) */
  function WithdrawAllFunds(v: BankVisit): (r: BankOutcome)
    ensures v.reached && v.balance == Some(0) ==> r == Completed(0, 0, 0)
    ensures r.Completed? <==> v.reached && v.balance.Some?
                              && (v.balance.value == 0
                                  || (v.controls && v.balanceAfter.Some? && v.balanceAfter.value < v.balance.value))
    ensures r.Completed? ==> r.amount == r.before - r.after && r.amount >= 0 && r.after >= 0
    ensures r.Completed? && r.before > 0 ==> r.amount > 0
  {
    if !v.reached then Failed(PageUnavailable)
    else if v.balance.None? then Failed(BalanceUnknown)
    else if v.balance.value == 0 then Completed(0, 0, 0)
    else if !v.controls then Failed(ControlsMissing)
    else if v.balanceAfter.None? then Failed(NotConfirmed)
    else if v.balanceAfter.value < v.balance.value then
      Completed(v.balance.value - v.balanceAfter.value, v.balance.value, v.balanceAfter.value)
    else Failed(NotConfirmed)
  }

  /** `deposit_funds`: refuse when the amount exceeds the cash on hand;
      after the click, succeed when the balance rose by at least the amount,
      reporting the actual rise. A balance that could not be read before
      the click makes the check fail afterwards. */
  function DepositFunds(amount: int, cash: Option<nat>, v: BankVisit): (r: BankOutcome)
    ensures v.reached && cash.Some? && amount > cash.value ==> r == Failed(ExceedsCash)
    ensures r.Completed? <==> v.reached && cash.Some? && amount <= cash.value && v.controls
                              && v.balance.Some? && v.balanceAfter.Some?
                              && v.balanceAfter.value >= v.balance.value + amount
    ensures r.Completed? ==> r.amount == r.after - r.before && r.amount >= amount
  {
    if !v.reached then Failed(PageUnavailable)
    else if cash.None? then Failed(CashUnknown)
    else if amount > cash.value then Failed(ExceedsCash)
    else if !v.controls then Failed(ControlsMissing)
    else if v.balance.Some? && v.balanceAfter.Some? then
      if v.balanceAfter.value >= v.balance.value + amount then
        Completed(v.balanceAfter.value - v.balance.value, v.balance.value, v.balanceAfter.value)
      else Failed(NotConfirmed)
    else Failed(NotConfirmed)
  }

  /** `ensure_minimum_funds`: nothing to do when the cash already covers the
      requirement; refuse when cash and bank together fall short; otherwise
      withdraw exactly the shortfall. */
  function EnsureMinimumFunds(required: int, cash: Option<nat>, bank: Option<nat>, v: BankVisit): (r: BankOutcome)
    ensures cash.None? ==> r == Failed(CashUnknown)
    ensures cash.Some? && cash.value >= required ==> r == Completed(0, cash.value, cash.value)
    ensures cash.Some? && cash.value < required && bank.Some? && bank.value < required - cash.value ==>
              r == Failed(InsufficientFunds)
    ensures cash.Some? && cash.value < required && bank.Some? && bank.value >= required - cash.value ==>
              r == WithdrawFunds(required - cash.value, v)
  {
    if cash.None? then Failed(CashUnknown)
    else if cash.value >= required then Completed(0, cash.value, cash.value)
    else if bank.None? then Failed(BalanceUnknown)
    else if bank.value < required - cash.value then Failed(InsufficientFunds)
    else WithdrawFunds(required - cash.value, v)
  }

  /** After a completed funds check the cash on hand plus what was withdrawn
      covers the requirement. */
  lemma EnsureMinimumFundsCovers(required: int, cash: Option<nat>, bank: Option<nat>, v: BankVisit)
    requires EnsureMinimumFunds(required, cash, bank, v).Completed?
    ensures cash.Some? && cash.value + EnsureMinimumFunds(required, cash, bank, v).amount >= required
  {
  }

  // ---------------------------------------------------------------------
  // The source as written: the check after a withdrawal reads the cache.

  /** How long, in seconds, a bank balance read stays cached. */
  const BalanceCacheSeconds: real := 30.0

  /** The balance `get_bank_balance` answers after the withdraw click, as
      the source runs it. The read before the click either came from the
      cache or refilled it, so the cache holds that balance; `cacheAge` is
      its age, in seconds, at the second read. While it is fresh the
      second read answers the old balance and the page is not read. */
  function BalanceAfterAsWritten(v: BankVisit, cacheAge: real): (r: Option<nat>)
    requires v.balance.Some?
    ensures cacheAge < BalanceCacheSeconds ==> r == v.balance
    ensures cacheAge >= BalanceCacheSeconds ==> r == v.balanceAfter
  {
    if cacheAge < BalanceCacheSeconds then v.balance else v.balanceAfter
  }

  /** `withdraw_funds` as written: the check after the click goes through
      the balance cache, which nothing cleared since the read before it. */
  function WithdrawFundsAsWritten(amount: int, v: BankVisit, cacheAge: real): (r: BankOutcome)
    ensures cacheAge >= BalanceCacheSeconds ==> r == WithdrawFunds(amount, v)
    ensures r.Completed? ==> r.amount == amount && r.before - r.after == amount
  {
    if !v.reached then Failed(PageUnavailable)
    else if v.balance.None? then Failed(BalanceUnknown)
    else if amount > v.balance.value then Failed(ExceedsBalance)
    else if !v.controls then Failed(ControlsMissing)
    else
      var after := BalanceAfterAsWritten(v, cacheAge);
      if after.Some? && after.value == v.balance.value - amount then
        Completed(amount, v.balance.value, after.value)
      else Failed(NotConfirmed)
  }

  /** Within the cache time, which the two-second wait after the click
      always is when the first read filled the cache, no withdrawal of a
      non-zero amount is ever confirmed, whatever the page shows: the
      second read answers the old balance. */
  lemma WithdrawNeverConfirmedWithinCacheAsWritten(amount: int, v: BankVisit, cacheAge: real)
    requires amount != 0 && cacheAge < BalanceCacheSeconds
    ensures !WithdrawFundsAsWritten(amount, v, cacheAge).Completed?
    ensures v.reached && v.balance.Some? && amount <= v.balance.value && v.controls ==>
              WithdrawFundsAsWritten(amount, v, cacheAge) == Failed(NotConfirmed)
  {
  }

  /** Withdrawing 1,000 from 5,000 with the page then showing 4,000: the
      intended check completes, the source as written reports failure. */
  lemma WithdrawCacheExample()
    ensures WithdrawFunds(1000, BankVisit(true, Some(5000), true, Some(4000))) == Completed(1000, 5000, 4000)
    ensures WithdrawFundsAsWritten(1000, BankVisit(true, Some(5000), true, Some(4000)), 2.0) == Failed(NotConfirmed)
  {
  }

  /** `ensure_minimum_funds` as written: the shortfall goes through the
      cached withdrawal check. */
  function EnsureMinimumFundsAsWritten(required: int, cash: Option<nat>, bank: Option<nat>, v: BankVisit,
                                       cacheAge: real): (r: BankOutcome)
    ensures cacheAge >= BalanceCacheSeconds ==> r == EnsureMinimumFunds(required, cash, bank, v)
    ensures cash.Some? && cash.value < required && bank.Some? && bank.value >= required - cash.value ==>
              r == WithdrawFundsAsWritten(required - cash.value, v, cacheAge)
  {
    if cash.None? then Failed(CashUnknown)
    else if cash.value >= required then Completed(0, cash.value, cash.value)
    else if bank.None? then Failed(BalanceUnknown)
    else if bank.value < required - cash.value then Failed(InsufficientFunds)
    else WithdrawFundsAsWritten(required - cash.value, v, cacheAge)
  }

  /** As written, the funds check completes only when the cash already
      covers the requirement: any real shortfall fails within the cache
      time. */
  lemma ShortfallNeverCoveredWithinCacheAsWritten(required: int, cash: Option<nat>, bank: Option<nat>, v: BankVisit,
                                                   cacheAge: real)
    requires cacheAge < BalanceCacheSeconds
    ensures EnsureMinimumFundsAsWritten(required, cash, bank, v, cacheAge).Completed? <==>
              cash.Some? && cash.value >= required
  {
    if cash.Some? && cash.value < required && bank.Some? && bank.value >= required - cash.value {
      WithdrawNeverConfirmedWithinCacheAsWritten(required - cash.value, v, cacheAge);
    }
  }
}
