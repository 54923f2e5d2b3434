/** The browser manager's bookkeeping: the error counter fed by the page's
    console, failed requests and crashes, the health test built on it, the
    login guard, and the name-and-quantity split of a listing's name cell.
    The browser itself is not modelled; its events are inputs. */
module BrowserManager {
  import opened Common
  import opened Text
  import opened NumberText

  /** One failed network request, as recorded. */
  datatype NetworkFailure = NetworkFailure(url: string, verb: string, failure: string, time: real)

  /** The manager's state. */
  datatype Monitor = Monitor(initialized: bool, hasPage: bool, loggedIn: bool,
                             errorCount: int, maxErrors: int, networkErrors: seq<NetworkFailure>)

  /** A new manager: not started, no errors, at most five. */
  const NewMonitor: Monitor := Monitor(false, false, false, 0, 5, [])

  /** A console message is an error when its type is "error". */
  predicate IsErrorType(msgType: string)
  {
    msgType == "error"
  }

  /** `_handle_console_message`: an error message adds one to the count. */
  function OnConsoleMessage(m: Monitor, msgType: string): (r: Monitor)
    ensures r.errorCount == m.errorCount + (if IsErrorType(msgType) then 1 else 0)
    ensures r == m.(errorCount := r.errorCount)
  {
    if IsErrorType(msgType) then m.(errorCount := m.errorCount + 1) else m
  }

  /** A run of console messages, in order. */
  function OnConsoleMessages(m: Monitor, types: seq<string>): (r: Monitor)
    ensures r == m.(errorCount := r.errorCount)
    decreases |types|
  {
    if |types| == 0 then m else OnConsoleMessages(OnConsoleMessage(m, types[0]), types[1..])
  }

  /** The count grows by the number of error messages in the run. */
  lemma {:induction false} ConsoleErrorsCounted(m: Monitor, types: seq<string>)
    ensures OnConsoleMessages(m, types).errorCount == m.errorCount + CountWhere(types, IsErrorType)
    decreases |types|
  {
    if |types| > 0 {
      ConsoleErrorsCounted(OnConsoleMessage(m, types[0]), types[1..]);
    }
  }

  /** `_handle_network_error`: one record appended, nothing else changed. */
  function OnNetworkError(m: Monitor, f: NetworkFailure): (r: Monitor)
    ensures r.networkErrors == m.networkErrors + [f]
    ensures |r.networkErrors| == |m.networkErrors| + 1
    ensures r == m.(networkErrors := r.networkErrors)
  {
    m.(networkErrors := m.networkErrors + [f])
  }

  /** `_handle_page_crash`: the count jumps to the maximum. */
  function OnPageCrash(m: Monitor): (r: Monitor)
    ensures r.errorCount >= r.maxErrors
    ensures r == m.(errorCount := m.maxErrors)
  {
    m.(errorCount := m.maxErrors)
  }

  /** `reset_error_count`. */
  function ResetErrorCount(m: Monitor): (r: Monitor)
    ensures r.errorCount == 0
    ensures r == m.(errorCount := 0)
  {
    m.(errorCount := 0)
  }

  /** `is_browser_healthy`: started, with a page that answers, and fewer
      errors than the maximum. */
  predicate IsHealthy(m: Monitor, responsive: bool)
  {
    m.initialized && m.hasPage && responsive && m.errorCount < m.maxErrors
  }

  /** A crash makes the manager unhealthy until the count is reset, and a
      reset restores health to a started manager whose page answers. */
  lemma CrashUntilReset(m: Monitor, responsive: bool)
    ensures !IsHealthy(OnPageCrash(m), responsive)
    ensures m.initialized && m.hasPage && responsive && m.maxErrors > 0 ==> IsHealthy(ResetErrorCount(OnPageCrash(m)), responsive)
  {
  }

  /** A new manager is not healthy: it has not started. */
  lemma NewMonitorUnhealthy(responsive: bool)
    ensures !IsHealthy(NewMonitor, responsive)
  {
  }

  /** What the login handler did when asked: succeeded, failed, or raised. */
  datatype HandlerReply = HandlerSucceeded | HandlerFailed | HandlerRaised

  /** The outcome of `ensure_logged_in`: `started` is false when it raised
      because the browser was not started. */
  datatype LoginOutcome = LoginOutcome(started: bool, ok: bool, monitor: Monitor)

  /** `ensure_logged_in`: already logged in needs no handler; without a
      handler the answer is no; otherwise the handler decides, and success
      is remembered. */
  function EnsureLoggedIn(m: Monitor, handler: Option<HandlerReply>): (r: LoginOutcome)
    ensures !m.hasPage ==> !r.started && r.monitor == m
    ensures m.hasPage ==> r.started
    ensures m.hasPage && m.loggedIn ==> r.ok && r.monitor == m
    ensures r.ok <==> m.hasPage && (m.loggedIn || handler == Some(HandlerSucceeded))
    ensures r.monitor == m.(loggedIn := r.monitor.loggedIn)
    ensures r.monitor.loggedIn == (m.loggedIn || r.ok)
  {
    if !m.hasPage then LoginOutcome(false, false, m)
    else if m.loggedIn then LoginOutcome(true, true, m)
    else match handler
      case None => LoginOutcome(true, false, m)
      case Some(HandlerSucceeded) => LoginOutcome(true, true, m.(loggedIn := true))
      case Some(_) => LoginOutcome(true, false, m)
  }

  // ---------------------------------------------------------------------
  // The quantity in a name cell

  /** Python's `int` on text: surrounding white space, an optional sign,
      then at least one digit and nothing else. */
  function ParseInt(s: string): (r: Option<int>)
    ensures r.Some? ==> Strip(s) != []
    ensures (forall k :: 0 <= k < |Strip(s)| ==> !IsDigit(Strip(s)[k])) ==> r.None?
  {
    ParseSigned(Strip(s))
  }

  /** `int` on text already stripped. */
  function ParseSigned(t: string): (r: Option<int>)
    ensures r.Some? ==> t != []
    ensures (forall k :: 0 <= k < |t| ==> !IsDigit(t[k])) ==> r.None?
  {
    if |t| > 0 && (t[0] == '+' || t[0] == '-') then
      var d := t[1..];
      if |d| > 0 && AllDigits(d) then
        assert IsDigit(t[1]);
        Some(if t[0] == '-' then 0 - DigitsValue(d) else DigitsValue(d))
      else None
    else if |t| > 0 && AllDigits(t) then Some(DigitsValue(t))
    else None
  }

  /** Digits alone parse as their value. */
  lemma ParseDigits(s: string)
    requires |s| > 0 && AllDigits(s)
    ensures ParseInt(s) == Some(DigitsValue(s))
  {
    assert IsDigit(s[0]) && IsDigit(s[|s| - 1]);
    StripOfStripped(s);
    SignedDigits(s);
  }

  lemma SignedDigits(s: string)
    requires |s| > 0 && AllDigits(s)
    ensures ParseSigned(s) == Some(DigitsValue(s))
  {
    assert IsDigit(s[0]);
  }

  /** A minus sign before digits negates their value. */
  lemma ParseNegative(s: string)
    requires |s| > 0 && AllDigits(s)
    ensures ParseInt(['-'] + s) == Some(0 - DigitsValue(s))
  {
    var t := ['-'] + s;
    assert IsDigit(t[|t| - 1]);
    StripOfStripped(t);
    SignedNegative(s);
  }

  lemma SignedNegative(s: string)
    requires |s| > 0 && AllDigits(s)
    ensures ParseSigned(['-'] + s) == Some(0 - DigitsValue(s))
  {
    assert (['-'] + s)[1..] == s;
  }

  /** A number written out parses back. */
  lemma ParseIntRoundTrip(n: nat)
    ensures ParseInt(NatToString(n)) == Some(n)
  {
    DigitsRoundTrip(n);
    ParseDigits(NatToString(n));
  }

  /** A name cell split into the item's name and its quantity. */
  datatype NameAndQuantity = NameAndQuantity(name: string, quantity: int)

  /** The text between the first '(' and the first ')', empty when the
      ')' comes first, as Python's slice gives it. */
  function Parenthesised(raw: string): (t: string)
    requires '(' in raw && ')' in raw
    ensures |t| < |raw|
  {
    var open := FirstIndex(raw, '(');
    var close := FirstIndex(raw, ')');
    if open + 1 <= close then raw[open + 1..close] else ""
  }

  /** The quantity split of `_extract_item_from_row`: a name holding both
      parentheses gives the number between the first '(' and the first ')'
      and the stripped text before the '('; otherwise, or when that text is
      not a number, the whole stripped name with quantity one. */
  function SplitNameQuantity(raw: string): (r: NameAndQuantity)
    ensures !('(' in raw && ')' in raw) ==> r == NameAndQuantity(Strip(raw), 1)
    ensures '(' in raw && ')' in raw && ParseInt(Parenthesised(raw)).None? ==> r == NameAndQuantity(Strip(raw), 1)
    ensures '(' in raw && ')' in raw && ParseInt(Parenthesised(raw)).Some? ==>
              r.quantity == ParseInt(Parenthesised(raw)).value && r.name == Strip(raw[..FirstIndex(raw, '(')])
  {
    var parsed := if '(' in raw && ')' in raw then ParseInt(Parenthesised(raw)) else None;
    match parsed
    case Some(q) => NameAndQuantity(Strip(raw[..FirstIndex(raw, '(')]), q)
    case None => NameAndQuantity(Strip(raw), 1)
  }

  /** The second strip applied to the name changes nothing: the name that
      comes out has no white space at either end. */
  lemma SplitNameIsStripped(raw: string)
    ensures var name := SplitNameQuantity(raw).name;
            Strip(name) == name && (name == [] || (!IsSpace(name[0]) && !IsSpace(name[|name| - 1])))
  {
    var source := if '(' in raw && ')' in raw && ParseInt(Parenthesised(raw)).Some? then raw[..FirstIndex(raw, '(')] else raw;
    assert SplitNameQuantity(raw).name == Strip(source);
    StrippedForm(source);
  }

  lemma StrippedForm(x: string)
    ensures var y := Strip(x);
            Strip(y) == y && (y == [] || (!IsSpace(y[0]) && !IsSpace(y[|y| - 1])))
  {
    StripEnds(x);
    StripTwice(x);
  }

  /** A name with its quantity in parentheses splits back into the two. */
  lemma SplitRoundTrip(name: string, n: nat)
    requires name != [] && !IsSpace(name[0]) && !IsSpace(name[|name| - 1])
    requires '(' !in name && ')' !in name
    ensures SplitNameQuantity(name + " (" + NatToString(n) + ")") == NameAndQuantity(name, n)
  {
    var digits := NatToString(n);
    var raw := name + " (" + digits + ")";
    ParenthesesAround(name, digits);
    ParseIntRoundTrip(n);
    StripTrailingSpace(name);
  }

  /** One space after stripped text is stripped away again. */
  lemma StripTrailingSpace(name: string)
    requires name != [] && !IsSpace(name[0]) && !IsSpace(name[|name| - 1])
    ensures Strip(name + " ") == name
  {
    assert (name + " ")[..|name|] == name;
    assert RStrip(name + " ") == name;
    LStripOfStripped(name + " ");
  }

  /** Where the parentheses of `name (digits)` sit, and what they hold. */
  lemma ParenthesesAround(name: string, digits: string)
    requires '(' !in name && ')' !in name
    requires AllDigits(digits)
    ensures var raw := name + " (" + digits + ")";
            && '(' in raw && ')' in raw
            && FirstIndex(raw, '(') == |name| + 1
            && raw[..|name| + 1] == name + " "
            && Parenthesised(raw) == digits
  {
    var raw := name + " (" + digits + ")";
    assert raw == (name + " ") + ['('] + (digits + ")");
    assert '(' !in name + " ";
    FirstIndexAfter(name + " ", '(', digits + ")");
    assert raw == (name + " (" + digits) + [')'] + [];
    assert ')' !in digits;
    assert ')' !in name + " (" + digits;
    FirstIndexAfter(name + " (" + digits, ')', []);
    assert raw[|name| + 2..|name| + 2 + |digits|] == digits;
    assert raw[..|name| + 1] == name + " ";
  }

  /** Left-stripping text that starts with a non-space changes nothing. */
  lemma LStripOfStripped(s: string)
    requires s != [] && !IsSpace(s[0])
    ensures LStrip(s) == s
  {
  }
}
