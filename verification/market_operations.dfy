/** The marketplace handler: keeping track of which market tab is open,
    buying one listing with retries, reading a listing row, and the two
    text-to-number readers. Browser effects (navigation, tab clicks, the
    buy button and its confirmation) are inputs. */
module MarketOperations {
  import opened Common
  import opened Text
  import opened NumberText
  import opened Models
  import TradingEngine

  // ---------------------------------------------------------------------
  // Marketplace session

  /** What the handler remembers about the page: whether it is on the
      marketplace, and the tab it last switched to (`None` after a fresh
      navigation). */
  datatype PageState = PageState(onMarketplace: bool, tab: Option<string>)

  const InitialPageState: PageState := PageState(false, None)

  /** The query fragment that marks the marketplace page in the URL. */
  const MarketplaceMarker: string := "page=35"

  datatype SessionOutcome = SessionOutcome(ok: bool, state: PageState)

  /** A tab request that asks for a switch: present and not empty. */
  predicate Requests(required: Option<string>)
  {
    required.Some? && required.value != ""
  }

  /** The tab the handler believes is open once it is on the marketplace:
      the remembered one if it was already there, none after navigating. */
  function TabOnArrival(url: string, state: PageState): Option<string>
  {
    if Contains(url, MarketplaceMarker) then state.tab else None
  }

  /** `_ensure_marketplace_session`: navigate unless the URL already shows
      the marketplace, then switch to the requested tab unless it is the
      remembered one. Only "buy" and "sell" can be switched to. */
  function EnsureMarketplaceSession(url: string, state: PageState, required: Option<string>,
                                    navigated: bool, switched: bool): (r: SessionOutcome)
    ensures !Contains(url, MarketplaceMarker) && !navigated ==> r == SessionOutcome(false, state)
    ensures r.ok <==> (Contains(url, MarketplaceMarker) || navigated)
                      && (!Requests(required) || TabOnArrival(url, state) == required
                          || (switched && required.value in {"buy", "sell"}))
    ensures r.ok ==> r.state.onMarketplace
    ensures r.ok && Requests(required) ==> r.state.tab == required
    ensures r.ok && !Requests(required) ==> r.state.tab == TabOnArrival(url, state)
  {
    var here := Contains(url, MarketplaceMarker);
    if !here && !navigated then SessionOutcome(false, state)
    else
      var s := PageState(true, TabOnArrival(url, state));
      if Requests(required) && s.tab != required then
        if required.value != "buy" && required.value != "sell" then SessionOutcome(false, s)
        else if switched then SessionOutcome(true, s.(tab := required))
        else SessionOutcome(false, s)
      else SessionOutcome(true, s)
  }

  /** Once a tab is reached, asking for it again while still on the
      marketplace needs neither a navigation nor a tab switch. */
  lemma SessionIsSticky(url: string, state: PageState, required: Option<string>, navigated: bool, switched: bool,
                        url2: string)
    requires EnsureMarketplaceSession(url, state, required, navigated, switched).ok
    requires Contains(url2, MarketplaceMarker)
    ensures var s := EnsureMarketplaceSession(url, state, required, navigated, switched).state;
            EnsureMarketplaceSession(url2, s, required, false, false) == SessionOutcome(true, s)
  {
  }

  // ---------------------------------------------------------------------
  // Buying one listing

  /** One pass of the purchase loop: the buy button could not be used;
      the pass raised; or the button was clicked and the confirmation
      dialog was, or was not, handled. */
  datatype PurchaseAttempt = ButtonFailed | AttemptRaised | ClickedConfirmed | ClickedUnconfirmed

  predicate Retryable(a: PurchaseAttempt)
  {
    a == ButtonFailed || a == AttemptRaised
  }

  datatype PurchaseFailure = SessionUnavailable | ConfirmationFailed | ButtonNotClicked | Raised | RetriesExhausted

  /** The reply of `execute_purchase`, with the number of passes made. */
  datatype PurchaseResult = Bought(tries: nat) | NotBought(reason: PurchaseFailure, tries: nat)

  /** The default number of passes. */
  const DefaultPurchaseRetries: int := 3

  /** The purchase loop from pass `k`: a confirmed click buys, an
      unconfirmed one gives up at once, and the other outcomes are retried
      until the last pass. */
  function PurchaseFrom(attempts: nat -> PurchaseAttempt, maxRetries: int, k: nat): (r: PurchaseResult)
    requires k < maxRetries
    ensures k < r.tries <= maxRetries
    ensures r.Bought? ==> attempts(r.tries - 1) == ClickedConfirmed
    ensures r.NotBought? && r.reason == ConfirmationFailed ==> attempts(r.tries - 1) == ClickedUnconfirmed
    ensures r.NotBought? ==> r.reason in {ConfirmationFailed, ButtonNotClicked, Raised}
    ensures r.NotBought? && r.reason != ConfirmationFailed ==> r.tries == maxRetries
    ensures forall i :: k <= i < r.tries - 1 ==> Retryable(attempts(i))
    decreases maxRetries - k
  {
    match attempts(k)
    case ClickedConfirmed => Bought(k + 1)
    case ClickedUnconfirmed => NotBought(ConfirmationFailed, k + 1)
    case ButtonFailed =>
      if k < maxRetries - 1 then PurchaseFrom(attempts, maxRetries, k + 1) else NotBought(ButtonNotClicked, k + 1)
    case AttemptRaised =>
      if k < maxRetries - 1 then PurchaseFrom(attempts, maxRetries, k + 1) else NotBought(Raised, k + 1)
  }

  /** Attempt `j` confirms, and every attempt from `k` up to it failed in a
      way that is retried. */
  predicate ConfirmsAfterRetries(attempts: nat -> PurchaseAttempt, k: nat, maxRetries: int, j: nat)
  {
    k <= j < maxRetries && attempts(j) == ClickedConfirmed && forall i: nat :: k <= i < j ==> Retryable(attempts(i))
  }

  /** A purchase goes through exactly when some attempt confirms and every
      attempt before it failed in a way that is retried. */
  lemma {:induction false} PurchaseFromBought(attempts: nat -> PurchaseAttempt, maxRetries: int, k: nat)
    requires k < maxRetries
    ensures PurchaseFrom(attempts, maxRetries, k).Bought? <==> exists j: nat :: ConfirmsAfterRetries(attempts, k, maxRetries, j)
    decreases maxRetries - k
  {
    if attempts(k) == ClickedConfirmed {
      assert ConfirmsAfterRetries(attempts, k, maxRetries, k);
    } else if Retryable(attempts(k)) && k < maxRetries - 1 {
      PurchaseFromBought(attempts, maxRetries, k + 1);
      assert PurchaseFrom(attempts, maxRetries, k) == PurchaseFrom(attempts, maxRetries, k + 1);
      if PurchaseFrom(attempts, maxRetries, k + 1).Bought? {
        var j: nat :| ConfirmsAfterRetries(attempts, k + 1, maxRetries, j);
        assert ConfirmsAfterRetries(attempts, k, maxRetries, j);
      } else if j: nat :| ConfirmsAfterRetries(attempts, k, maxRetries, j) {
        assert j != k;
        assert ConfirmsAfterRetries(attempts, k + 1, maxRetries, j);
      }
    } else {
      forall j: nat | ConfirmsAfterRetries(attempts, k, maxRetries, j)
        ensures j > k
      {
      }
    }
  }

  /** `execute_purchase`: nothing is tried when the buy tab cannot be
      reached, and a non-positive retry count tries nothing either. */
  function ExecutePurchase(sessionOk: bool, attempts: nat -> PurchaseAttempt, maxRetries: int): (r: PurchaseResult)
    ensures !sessionOk ==> r == NotBought(SessionUnavailable, 0)
    ensures r.tries <= Max(0, maxRetries)
    ensures r.Bought? <==> sessionOk && exists j: nat :: ConfirmsAfterRetries(attempts, 0, maxRetries, j)
    ensures sessionOk && maxRetries > 0 && r.NotBought? ==> r.reason != SessionUnavailable && r.reason != RetriesExhausted
  {
    if !sessionOk then NotBought(SessionUnavailable, 0)
    else if maxRetries <= 0 then NotBought(RetriesExhausted, 0)
    else
      PurchaseFromBought(attempts, maxRetries, 0);
      PurchaseFrom(attempts, maxRetries, 0)
  }

  /** The reply the trading engine receives: a dictionary whose `success`
      entry says whether the listing was bought. */
  function Reply(r: PurchaseResult): (reply: TradingEngine.PurchaseReply)
    ensures reply.PurchaseReply?
    ensures TradingEngine.Succeeded(reply) <==> r.Bought?
  {
    TradingEngine.PurchaseReply(r.Bought?)
  }

  /** Every reply, failed or not, is a dictionary, so the engine's
      as-written test counts every attempted purchase as bought. */
  lemma EveryReplyCountsAsWritten(sessionOk: bool, attempts: nat -> PurchaseAttempt, maxRetries: int)
    ensures TradingEngine.CountsAsWritten(Reply(ExecutePurchase(sessionOk, attempts, maxRetries)))
    ensures !sessionOk ==> !TradingEngine.Succeeded(Reply(ExecutePurchase(sessionOk, attempts, maxRetries)))
  {
  }

  // ---------------------------------------------------------------------
  // Reading a listing row

  /** A row attribute: absent (the default applies), present and parsed,
      or present but not a number (the conversion raises). */
  datatype Attribute<T> = Absent | Given(value: T) | Malformed

  function AttributeOr<T>(a: Attribute<T>, default: T): Option<T>
  {
    match a
    case Absent => Some(default)
    case Given(v) => Some(v)
    case Malformed => None
  }

  /** A marketplace row: the total price and quantity attributes, and the
      text of the name and seller cells when they exist. */
  datatype Row = Row(price: Attribute<real>, quantity: Attribute<int>, nameText: Option<string>, sellerText: Option<string>)

  /** The name shown for a row: its stripped cell text, or a placeholder
      numbered by row when the cell is missing. */
  function RowLabel(text: Option<string>, fallback: string, rowIndex: nat): (s: string)
    ensures text.None? ==> |s| > |fallback|
    ensures text.Some? ==> s == Strip(text.value)
  {
    match text
    case Some(t) => Strip(t)
    case None => fallback + NatToString(rowIndex)
  }

  /** A listing from its total price: the unit price is the total over
      the quantity when the quantity is positive, the total otherwise. */
  function ListingFromTotal(name: string, seller: string, total: real, quantity: int): (m: MarketItem)
    ensures m.name == name && m.seller == seller && m.quantity == quantity
    ensures quantity > 0 ==> m.Cost() == total
    ensures quantity <= 0 ==> m.price == total
    ensures total > 0.0 ==> m.price > 0.0
  {
    var unit := if quantity > 0 then total / quantity as real else total;
    MarketItem(name, seller, unit, quantity)
  }

  /** `_extract_item_from_row`: the listing with its price turned into a
      unit price (when the quantity is positive), or nothing when a number
      is malformed, the name is empty or the total price is not positive. */
  function ExtractItemFromRow(row: Row, rowIndex: nat): (r: Option<MarketItem>)
    ensures r.Some? <==> !row.price.Malformed? && !row.quantity.Malformed?
                         && AttributeOr(row.price, 0.0).value > 0.0
                         && (row.nameText.None? || Strip(row.nameText.value) != "")
    ensures r.Some? ==> r.value.price > 0.0 && r.value.name != []
                        && r.value.quantity == AttributeOr(row.quantity, 1).value
    ensures r.Some? && r.value.quantity > 0 ==> r.value.Cost() == AttributeOr(row.price, 0.0).value
    ensures r.Some? && r.value.quantity <= 0 ==> r.value.price == AttributeOr(row.price, 0.0).value
  {
    match (AttributeOr(row.price, 0.0), AttributeOr(row.quantity, 1))
    case (Some(total), Some(quantity)) =>
      var name := RowLabel(row.nameText, "Unknown Item ", rowIndex);
      var seller := RowLabel(row.sellerText, "Unknown Seller ", rowIndex);
      if name == [] || total <= 0.0 then None
      else
        Some(ListingFromTotal(name, seller, total, quantity))
    case _ => None
  }

  // ---------------------------------------------------------------------
  // Numbers in text

  predicate IsDollarOrComma(c: char) { c == '$' || c == ',' }

  /** The `.digits` that may follow the whole part of a price. */
  function FractionDigits(after: string): (f: string)
    ensures AllDigits(f)
    ensures f != [] ==> |after| > |f| && after[0] == '.' && after[1..|f| + 1] == f
                        && (|after| == |f| + 1 || !IsDigit(after[|f| + 1]))
    ensures f == [] ==> |after| < 2 || after[0] != '.' || !IsDigit(after[1])
  {
    if |after| >= 2 && after[0] == '.' && IsDigit(after[1]) then
      var n := DigitPrefixLen(after[1..]);
      after[1..1 + n]
    else ""
  }

  /** A whole number plus a proper fraction has that whole number as its
      floor. */
  lemma FloorOfFraction(whole: nat, num: nat, den: nat)
    requires 0 < den && num < den
    ensures (whole as real + num as real / den as real).Floor == whole
  {
    assert 0.0 <= num as real / den as real < 1.0;
  }

  /** A whole part followed by the digits of a decimal fraction. */
  function DecimalValue(whole: nat, frac: string): (r: real)
    requires AllDigits(frac)
    ensures r >= 0.0 && r.Floor == whole
    ensures frac == [] ==> r == whole as real
  {
    DigitsValueBound(frac);
    FloorOfFraction(whole, DigitsValue(frac), Pow10(|frac|));
    whole as real + DigitsValue(frac) as real / Pow10(|frac|) as real
  }

  /** The first number in already cleaned text: its whole part with an
      optional decimal fraction, or 0.0 when the text holds no digit. */
  function PriceValue(clean: string): (r: real)
    ensures r >= 0.0
    ensures r.Floor == match ReadFirstNumber(clean)
                       case None => 0
                       case Some(n) => n
  {
    var i := FirstDigitAt(clean);
    if i < 0 then 0.0
    else
      var run := FirstDigitRun(clean);
      DecimalValue(DigitsValue(run), FractionDigits(clean[i + |run|..]))
  }

  /** `_extract_price_from_text`: drop '$' and ',' from the stripped text,
      then read the first number, fraction included. */
  function ExtractPriceFromText(text: string): (r: real)
    ensures r >= 0.0
    ensures r.Floor == match ReadFirstNumber(Without(Strip(text), IsDollarOrComma))
                       case None => 0
                       case Some(n) => n
  {
    PriceValue(Without(Strip(text), IsDollarOrComma))
  }

  /** A run of digits alone reads as its value. */
  lemma PriceOfDigits(d: string)
    requires |d| > 0 && AllDigits(d)
    ensures PriceValue(d) == DigitsValue(d) as real
  {
    assert FirstDigitAt(d) == 0;
    DigitPrefixAll(d);
    assert d[0..|d|] == d;
    assert FirstDigitRun(d) == d;
    assert FractionDigits(d[|d|..]) == "";
  }

  /** A price written with a dollar sign and thousands separators reads
      back as its value. */
  lemma PriceRoundTrip(n: nat)
    ensures ExtractPriceFromText("$" + Thousands(n)) == n as real
  {
    var text := "$" + Thousands(n);
    assert text[0] == '$' && text[|text| - 1] == Thousands(n)[|Thousands(n)| - 1];
    StripOfStripped(text);
    DollarThousandsDigits(n, IsDollarOrComma);
    PriceOfDigits(Without(text, IsDollarOrComma));
  }

  /** A point followed by digits is read as the fraction. */
  lemma FractionOfPoint(frac: string)
    requires |frac| > 0 && AllDigits(frac)
    ensures FractionDigits("." + frac) == frac
  {
    var after := "." + frac;
    assert after[1..] == frac;
    DigitPrefixAll(frac);
    assert after[1..1 + |frac|] == frac;
  }

  /** Digits, a point and more digits read as a decimal number. */
  lemma PriceOfDecimal(whole: string, frac: string)
    requires |whole| > 0 && AllDigits(whole) && |frac| > 0 && AllDigits(frac)
    ensures PriceValue(whole + "." + frac) == DecimalValue(DigitsValue(whole), frac)
  {
    var rest := "." + frac;
    var text := whole + rest;
    assert text == whole + "." + frac;
    FirstRunOf(whole, rest);
    assert text[|whole|..] == rest;
    FractionOfPoint(frac);
  }

  /** Digits around a point are left alone by stripping and by dropping
      '$' and ','. */
  lemma DecimalTextIsClean(whole: string, frac: string)
    requires |whole| > 0 && AllDigits(whole) && |frac| > 0 && AllDigits(frac)
    ensures Without(Strip(whole + "." + frac), IsDollarOrComma) == whole + "." + frac
  {
    var text := whole + "." + frac;
    assert text[0] == whole[0] && text[|text| - 1] == frac[|frac| - 1];
    assert IsDigit(text[0]) && IsDigit(text[|text| - 1]);
    StripOfStripped(text);
    DecimalKeptWhole(whole, frac);
  }

  lemma DecimalKeptWhole(whole: string, frac: string)
    requires AllDigits(whole) && AllDigits(frac)
    ensures Without(whole + "." + frac, IsDollarOrComma) == whole + "." + frac
  {
    var text := whole + "." + frac;
    assert forall k :: 0 <= k < |text| ==> IsDigit(text[k]) || text[k] == '.';
    WithoutNothing(text, IsDollarOrComma);
  }

  /** A decimal price reads back as its whole part plus its fraction. */
  lemma DecimalPriceRoundTrip(whole: string, frac: string)
    requires |whole| > 0 && AllDigits(whole) && |frac| > 0 && AllDigits(frac)
    ensures ExtractPriceFromText(whole + "." + frac) == DecimalValue(DigitsValue(whole), frac)
    ensures ExtractPriceFromText(whole + "." + frac).Floor == DigitsValue(whole)
  {
    DecimalTextIsClean(whole, frac);
    PriceOfDecimal(whole, frac);
  }

  /** `_extract_number_from_text`: the first run of digits in the stripped
      text, with nothing removed first. */
  function ExtractNumberFromText(text: string): (r: Option<nat>)
    ensures r.None? <==> forall k :: 0 <= k < |Strip(text)| ==> !IsDigit(Strip(text)[k])
  {
    ReadFirstNumber(Strip(text))
  }

  /** A plain number reads back as itself. */
  lemma NumberRoundTrip(n: nat)
    ensures ExtractNumberFromText(NatToString(n)) == Some(n)
  {
    var s := NatToString(n);
    StripOfStripped(s);
    ReadAllDigits(s);
    DigitsRoundTrip(n);
  }

  /** Because separators are not removed first, a number of a thousand or
      more written with separators reads as its leading group only. */
  lemma NumberStopsAtSeparator(n: nat)
    requires n >= 1000
    ensures ExtractNumberFromText(Thousands(n)).Some?
    ensures ExtractNumberFromText(Thousands(n)).value < 1000
  {
    var t := Thousands(n);
    StripOfStripped(t);
    ThousandsShape(n);
    var lead, groups :| t == lead + groups && 1 <= |lead| <= 3 && AllDigits(lead) && IsGroups(groups);
    DigitsValueBound(lead);
    Pow10Grows(|lead|, 3);
    assert Pow10(3) == 1000;
    if groups == [] {
      WithoutNothing(lead, IsComma);
      ThousandsDigits(n);
      assert false;
    }
    DigitRunStops(lead, groups);
  }
}
