/** The page navigator: navigation and refresh, the two cached page reads
    (login status and cash), and its number reader. The browser's replies
    are inputs. */
module PageNavigator {
  import opened Common
  import opened Text
  import opened NumberText

  /** The navigator's cache: the last cash amount and login status read
      from the page, if any. */
  datatype NavCache = NavCache(cash: Option<nat>, loggedIn: Option<bool>)

  const EmptyCache: NavCache := NavCache(None, None)

  datatype NavOutcome = NavOutcome(ok: bool, cache: NavCache)

  /** `navigate_to_url`: a page that loaded clears both cached reads; a
      failed load leaves them. */
  function NavigateToUrl(cache: NavCache, loaded: bool): (r: NavOutcome)
    ensures r.ok == loaded
    ensures r.ok ==> r.cache == EmptyCache
    ensures !r.ok ==> r.cache == cache
  {
    if loaded then NavOutcome(true, EmptyCache) else NavOutcome(false, cache)
  }

  /** `refresh_page`: as navigation, and nothing happens without a page. */
  function RefreshPage(cache: NavCache, hasPage: bool, reloaded: bool): (r: NavOutcome)
    ensures r.ok <==> hasPage && reloaded
    ensures r.ok ==> r.cache == EmptyCache
    ensures !r.ok ==> r.cache == cache
  {
    if !hasPage then NavOutcome(false, cache) else NavigateToUrl(cache, reloaded)
  }

  /** `clear_cache`. */
  function ClearCache(cache: NavCache): (r: NavCache)
    ensures r.cash.None? && r.loggedIn.None?
  {
    EmptyCache
  }

  // ---------------------------------------------------------------------
  // Login status

  /** What a fresh look at the page finds: its URL, whether a login form
      is shown, whether a logout link or player information is shown, and
      whether the look raised. */
  datatype LoginProbe = LoginProbe(url: string, loginForm: bool, userMarkers: bool, raised: bool)

  const GameHost: string := "fairview.deadfrontier.com"

  /** The URL of a login page. */
  predicate LoginUrl(url: string)
  {
    Contains(url, "autologin=1") || Contains(Lower(url), "login")
  }

  /** An automatic-login URL already contains "login", so the test comes
      down to "login" appearing in any letter case. */
  lemma LoginUrlIffLogin(url: string)
    ensures LoginUrl(url) <==> Contains(Lower(url), "login")
  {
    if Contains(url, "autologin=1") {
      var i :| 0 <= i <= |url| && OccursAt(url, "autologin=1", i);
      assert url[i + 4..i + 9] == url[i..i + 11][4..9];
      assert "autologin=1"[4..9] == "login";
      assert OccursAt(url, "login", i + 4);
      LowerKeepsOccurrence(url, "login", i + 4);
      LowerOfLower("login");
    }
  }

  /** The status a fresh look decides: out on a login page showing its
      form, in on the game host, otherwise in when player markers show. */
  function FreshLoginStatus(p: LoginProbe): (b: bool)
    ensures b ==> !p.raised
    ensures b <==> !p.raised && !(LoginUrl(p.url) && p.loginForm) && (Contains(p.url, GameHost) || p.userMarkers)
  {
    if p.raised then false
    else if LoginUrl(p.url) && p.loginForm then false
    else if Contains(p.url, GameHost) then true
    else p.userMarkers
  }

  datatype StatusRead = StatusRead(loggedIn: bool, cache: NavCache)

  /** `check_login_status`: the cached status when there is one, otherwise
      a fresh look, which is then cached. Without a page the answer is no
      and nothing is cached. */
  function CheckLoginStatus(cache: NavCache, hasPage: bool, p: LoginProbe): (r: StatusRead)
    ensures !hasPage ==> r == StatusRead(false, cache)
    ensures hasPage && cache.loggedIn.Some? ==> r == StatusRead(cache.loggedIn.value, cache)
    ensures hasPage ==> r.cache.loggedIn == Some(r.loggedIn) && r.cache.cash == cache.cash
    ensures hasPage && cache.loggedIn.None? ==> r.loggedIn == FreshLoginStatus(p)
  {
    if !hasPage then StatusRead(false, cache)
    else match cache.loggedIn
      case Some(b) => StatusRead(b, cache)
      case None =>
        var b := FreshLoginStatus(p);
        StatusRead(b, cache.(loggedIn := Some(b)))
  }

  /** `ensure_logged_in`: logged in already, or else the outcome of
      navigating to the login page. Without a page the status check says
      no and the navigation raises `NavigationError`, which reaches the
      caller; the model answers that raise as a failure that changes
      nothing. */
  function EnsureLoggedIn(cache: NavCache, hasPage: bool, p: LoginProbe, loginLoaded: bool): (r: NavOutcome)
    ensures !hasPage ==> !r.ok && r.cache == cache
    ensures r.ok <==> hasPage && (CheckLoginStatus(cache, hasPage, p).loggedIn || loginLoaded)
    ensures hasPage && !CheckLoginStatus(cache, hasPage, p).loggedIn && loginLoaded ==> r.cache == EmptyCache
  {
    if !hasPage then NavOutcome(false, cache)
    else
      var s := CheckLoginStatus(cache, hasPage, p);
      if s.loggedIn then NavOutcome(true, s.cache) else NavigateToUrl(s.cache, loginLoaded)
  }

  /** A status read once is answered from the cache until a navigation:
      a second read gives the same answer whatever the page shows. */
  lemma LoginStatusIsCached(cache: NavCache, p: LoginProbe, q: LoginProbe)
    ensures var first := CheckLoginStatus(cache, true, p);
            CheckLoginStatus(first.cache, true, q) == first
  {
  }

  /** After a navigation that loaded, the status is looked at afresh. */
  lemma NavigationForgetsStatus(cache: NavCache, p: LoginProbe)
    ensures CheckLoginStatus(NavigateToUrl(cache, true).cache, true, p).loggedIn == FreshLoginStatus(p)
  {
  }

  // ---------------------------------------------------------------------
  // Cash

  predicate IsCurrencyOrSpace(c: char)
  {
    c == '$' || c == ',' || IsSpace(c)
  }

  /** `_extract_number_from_text`: nothing for empty text; otherwise the
      first number once currency signs, separators and white space are
      removed. */
  function ExtractNumberFromText(text: string): (r: Option<nat>)
    ensures text == [] ==> r.None?
    ensures text != [] ==> r == ReadFirstNumber(Without(text, IsCurrencyOrSpace))
  {
    if text == [] then None else ReadFirstNumber(Without(text, IsCurrencyOrSpace))
  }

  /** An amount written with a dollar sign and thousands separators reads
      back whole. */
  lemma NumberRoundTrip(n: nat)
    ensures ExtractNumberFromText("$" + Thousands(n)) == Some(n)
  {
    DollarThousandsDigits(n, IsCurrencyOrSpace);
    ReadAllDigits(Without("$" + Thousands(n), IsCurrencyOrSpace));
  }

  /** White space inside the amount is removed too. */
  lemma SpacedNumberRoundTrip(n: nat)
    ensures ExtractNumberFromText("$ " + Thousands(n)) == Some(n)
  {
    var t := Thousands(n);
    WithoutAppend("$ ", t, IsCurrencyOrSpace);
    WithoutAppend("$", t, IsCurrencyOrSpace);
    assert Without("$ ", IsCurrencyOrSpace) == "";
    assert Without("$", IsCurrencyOrSpace) == "";
    NumberRoundTrip(n);
  }

  /** The first cash element whose text holds a number, if any. */
  function FirstElementAmount(texts: seq<string>): (r: Option<nat>)
    ensures r.Some? <==> exists k :: 0 <= k < |texts| && ExtractNumberFromText(texts[k]).Some?
    ensures r.Some? ==> exists k :: 0 <= k < |texts| && ExtractNumberFromText(texts[k]) == r
                                   && forall j :: 0 <= j < k ==> ExtractNumberFromText(texts[j]).None?
  {
    FirstSome(texts, ExtractNumberFromText)
  }

  datatype CashRead = CashRead(cash: Option<nat>, cache: NavCache)

  /** `get_current_cash`: the cached amount when there is one; otherwise
      the first cash element that holds a number, else what the script and
      page-text patterns found (`fallback`). A found amount is cached. */
  function GetCurrentCash(cache: NavCache, hasPage: bool, elementTexts: seq<string>, fallback: Option<nat>): (r: CashRead)
    ensures !hasPage ==> r == CashRead(None, cache)
    ensures hasPage && cache.cash.Some? ==> r == CashRead(cache.cash, cache)
    ensures hasPage && cache.cash.None? ==>
              r.cash == (if FirstElementAmount(elementTexts).Some? then FirstElementAmount(elementTexts) else fallback)
    ensures r.cache.loggedIn == cache.loggedIn
    ensures r.cash.Some? ==> r.cache.cash == r.cash
    ensures r.cash.None? ==> r.cache == cache
  {
    if !hasPage then CashRead(None, cache)
    else if cache.cash.Some? then CashRead(cache.cash, cache)
    else
      var found := FirstElementAmount(elementTexts);
      var amount := if found.Some? then found else fallback;
      if amount.Some? then CashRead(amount, cache.(cash := amount)) else CashRead(None, cache)
  }

  /** An amount read once is served from the cache until a navigation. */
  lemma CashIsCached(cache: NavCache, texts: seq<string>, fallback: Option<nat>, texts2: seq<string>, fallback2: Option<nat>)
    requires GetCurrentCash(cache, true, texts, fallback).cash.Some?
    ensures var first := GetCurrentCash(cache, true, texts, fallback);
            GetCurrentCash(first.cache, true, texts2, fallback2) == first
  {
  }
}
