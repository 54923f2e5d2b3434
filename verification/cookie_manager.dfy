/** Saved login sessions: which cookies are kept, when a saved session
    expires, whether a saved session is still usable, and the live check
    of the page's URL. Times are whole seconds, passed in; files are not
    modelled. */
module CookieManager {
  import opened Common
  import opened Text
  import PageNavigator

  /** A browser cookie; a cookie without a domain has the empty one. */
  datatype Cookie = Cookie(name: string, domain: string)

  /** The domains whose cookies belong to the game. */
  const CookieDomains: seq<string> := ["deadfrontier.com", "www.deadfrontier.com", "fairview.deadfrontier.com"]

  /** How long a saved session lasts: 24 hours. */
  const SessionTimeout: int := 24 * 60 * 60

  /** A cookie belongs to the game when its domain contains one of the
      configured domains. */
  predicate Relevant(c: Cookie)
  {
    exists k :: 0 <= k < |CookieDomains| && Contains(c.domain, CookieDomains[k])
  }

  /** The two longer domains contain the first, so the test reduces to the
      first one. */
  lemma RelevantIffBaseDomain(c: Cookie)
    ensures Relevant(c) <==> Contains(c.domain, "deadfrontier.com")
  {
    if Relevant(c) {
      var k :| 0 <= k < |CookieDomains| && Contains(c.domain, CookieDomains[k]);
      DomainHoldsBase(k);
      ContainsTrans(c.domain, CookieDomains[k], "deadfrontier.com");
    } else {
      assert CookieDomains[0] == "deadfrontier.com";
      assert !Contains(c.domain, CookieDomains[0]);
    }
  }

  /** Each configured domain ends with the first one. */
  lemma DomainHoldsBase(k: int)
    requires 0 <= k < |CookieDomains|
    ensures Contains(CookieDomains[k], "deadfrontier.com")
  {
    if k == 0 {
      assert CookieDomains[0] == "deadfrontier.com";
      ContainsSelf("deadfrontier.com");
    } else if k == 1 {
      assert CookieDomains[1] == "www." + "deadfrontier.com";
      ContainsSuffix("www.", "deadfrontier.com");
    } else {
      assert CookieDomains[2] == "fairview." + "deadfrontier.com";
      ContainsSuffix("fairview.", "deadfrontier.com");
    }
  }

  /** A string occurs at the end of anything it ends. */
  lemma ContainsSuffix(front: string, tail: string)
    ensures Contains(front + tail, tail)
  {
    var s := front + tail;
    assert s[|front|..|front| + |tail|] == tail;
    assert OccursAt(s, tail, |front|);
  }

  /** The relevant cookies, in their original order. */
  function RelevantCookies(cookies: seq<Cookie>): (r: seq<Cookie>)
    ensures |r| <= |cookies|
    ensures forall k :: 0 <= k < |r| ==> Relevant(r[k]) && r[k] in cookies
    ensures forall k :: 0 <= k < |cookies| && Relevant(cookies[k]) ==> cookies[k] in r
  {
    if |cookies| == 0 then []
    else if Relevant(cookies[0]) then [cookies[0]] + RelevantCookies(cookies[1..])
    else RelevantCookies(cookies[1..])
  }

  /** What a saved session records. `valid` and `expiresAt` may be absent
      in a session read back from storage. */
  datatype SessionData = SessionData(cookies: seq<Cookie>, lastUrl: string, valid: Option<bool>, expiresAt: Option<int>)

  /** `save_session`: nothing is saved when no cookie belongs to the game;
      otherwise the game's cookies, marked valid, expiring a day later. */
  function SaveSession(cookies: seq<Cookie>, url: string, now: int): (r: Option<SessionData>)
    ensures r.None? <==> forall k :: 0 <= k < |cookies| ==> !Relevant(cookies[k])
    ensures r.Some? ==> r.value.cookies == RelevantCookies(cookies) && r.value.lastUrl == url
                        && r.value.valid == Some(true) && r.value.expiresAt == Some(now + SessionTimeout)
  {
    var kept := RelevantCookies(cookies);
    if kept == [] then
      None
    else
      assert Relevant(kept[0]) && kept[0] in cookies;
      var k :| 0 <= k < |cookies| && cookies[k] == kept[0];
      Some(SessionData(kept, url, Some(true), Some(now + SessionTimeout)))
  }

  /** `_is_session_valid`: not after its expiry time, not unless marked
      valid, and not without cookies. A missing expiry is no objection. */
  predicate IsSessionValid(s: SessionData, now: int)
  {
    && !(s.expiresAt.Some? && now > s.expiresAt.value)
    && s.valid == Some(true)
    && s.cookies != []
  }

  /** Validity is lost only by time passing: a session valid now was valid
      at every earlier time, and one without an expiry time is judged the
      same at every time. */
  lemma SessionValidityOnlyExpires(s: SessionData, earlier: int, now: int)
    requires earlier <= now
    ensures IsSessionValid(s, now) ==> IsSessionValid(s, earlier)
    ensures s.expiresAt.None? ==> (IsSessionValid(s, now) <==> IsSessionValid(s, earlier))
  {
  }

  /** A session just saved stays valid for exactly a day. */
  lemma SavedSessionLastsADay(cookies: seq<Cookie>, url: string, saved: int, now: int)
    requires SaveSession(cookies, url, saved).Some?
    ensures IsSessionValid(SaveSession(cookies, url, saved).value, now) <==> now <= saved + SessionTimeout
  {
  }

  /** What the live check finds: game indicators on the page, and, when
      it has to probe a protected page, whether that loaded and where it
      landed. */
  datatype LiveCheck = LiveCheck(indicators: bool, probeLoaded: bool, landedUrl: string)

  /** `validate_session`: a login URL means no session; on the game host
      an indicator confirms it; otherwise a probe must land on the game
      host and not on an automatic-login page. */
  function ValidateSession(url: string, live: LiveCheck): (ok: bool)
    ensures PageNavigator.LoginUrl(url) ==> !ok
    ensures ok <==> !PageNavigator.LoginUrl(url)
                    && ((Contains(url, PageNavigator.GameHost) && live.indicators)
                        || (live.probeLoaded && Contains(live.landedUrl, PageNavigator.GameHost)
                            && !Contains(live.landedUrl, "autologin")))
  {
    if PageNavigator.LoginUrl(url) then false
    else if Contains(url, PageNavigator.GameHost) && live.indicators then true
    else live.probeLoaded && Contains(live.landedUrl, PageNavigator.GameHost) && !Contains(live.landedUrl, "autologin")
  }
}
