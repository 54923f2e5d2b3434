/** The login handler's gate: how many attempts have been made, when the
    last login happened, and whether another attempt is allowed now. Times
    are the event loop's clock in seconds, passed in. */
module LoginHandler {
  import opened Common

  /** The gate's state. `last` is the time of the last recorded login; a
      time of zero counts as no time at all, as Python's truth test on the
      stored value does. */
  datatype LoginGate = LoginGate(attempts: int, maxAttempts: int, last: Option<real>, cooldown: real)

  /** A new handler: no attempts, at most three, no last login, and a
      30-second cooldown. */
  const NewLoginGate: LoginGate := LoginGate(0, 3, None, 30.0)

  /** A last login time is on record (present and not zero). */
  predicate Recorded(g: LoginGate)
  {
    g.last.Some? && g.last.value != 0.0
  }

  /** `_can_attempt_login`: not once the attempts reach the maximum, and
      not while the cooldown since the last login is running. */
  predicate CanAttemptLogin(g: LoginGate, now: real)
  {
    g.attempts < g.maxAttempts && !(Recorded(g) && now - g.last.value < g.cooldown)
  }

  /** With the gate unchanged, waiting only opens it: an attempt allowed at
      one time is allowed at every later time. Once the attempts reach the
      maximum no time opens it. */
  lemma AttemptGateOnlyOpens(g: LoginGate, earlier: real, now: real)
    requires earlier <= now
    ensures CanAttemptLogin(g, earlier) ==> CanAttemptLogin(g, now)
    ensures g.attempts >= g.maxAttempts ==> !CanAttemptLogin(g, now)
  {
  }

  /** The cooldown still to run, as `get_login_status` reports it. */
  function CooldownRemaining(g: LoginGate, now: real): (r: real)
    ensures r >= 0.0
    ensures !Recorded(g) ==> r == 0.0
    ensures Recorded(g) ==> r >= g.cooldown - (now - g.last.value)
    ensures Recorded(g) && r > 0.0 ==> r == g.cooldown - (now - g.last.value)
  {
    if Recorded(g) then MaxReal(0.0, g.cooldown - (now - g.last.value)) else 0.0
  }

  /** The two views agree: an attempt is allowed exactly when attempts
      remain and no cooldown is left. */
  lemma CanAttemptIffNoCooldown(g: LoginGate, now: real)
    ensures CanAttemptLogin(g, now) <==> g.attempts < g.maxAttempts && CooldownRemaining(g, now) == 0.0
  {
  }

  /** A new handler may log in at any time. */
  lemma NewGateAllowsLogin(now: real)
    ensures CanAttemptLogin(NewLoginGate, now)
    ensures CooldownRemaining(NewLoginGate, now) == 0.0
  {
  }

  /** `_reset_login_attempts`: no attempts, and the login time is now. */
  function ResetLoginAttempts(g: LoginGate, now: real): (r: LoginGate)
    ensures r.attempts == 0 && r.last == Some(now)
    ensures r.maxAttempts == g.maxAttempts && r.cooldown == g.cooldown
  {
    g.(attempts := 0, last := Some(now))
  }

  /** After a reset at a non-zero time, the next attempt waits for the
      cooldown, and then depends only on the maximum being positive. */
  lemma ResetStartsCooldown(g: LoginGate, now: real, later: real)
    requires now != 0.0
    ensures CanAttemptLogin(ResetLoginAttempts(g, now), later) <==> 0 < g.maxAttempts && later - now >= g.cooldown
  {
  }

  /** `reset_login_state`: no attempts and no login time. */
  function ResetLoginState(g: LoginGate): (r: LoginGate)
    ensures r.attempts == 0 && r.last.None?
    ensures r.maxAttempts == g.maxAttempts && r.cooldown == g.cooldown
  {
    g.(attempts := 0, last := None)
  }

  /** After a full reset the only thing that can stop an attempt is a
      non-positive maximum. */
  lemma ResetStateClearsGate(g: LoginGate, now: real)
    ensures CanAttemptLogin(ResetLoginState(g), now) <==> 0 < g.maxAttempts
    ensures CooldownRemaining(ResetLoginState(g), now) == 0.0
  {
  }

  /** `get_login_status`. */
  datatype LoginStatus = LoginStatus(attempts: int, maxAttempts: int, last: Option<real>,
                                     cooldownRemaining: real, canAttempt: bool)

  function GetLoginStatus(g: LoginGate, now: real): (s: LoginStatus)
    ensures s.attempts == g.attempts && s.maxAttempts == g.maxAttempts && s.last == g.last
    ensures s.cooldownRemaining >= 0.0
    ensures s.canAttempt <==> s.attempts < s.maxAttempts && s.cooldownRemaining == 0.0
  {
    CanAttemptIffNoCooldown(g, now);
    LoginStatus(g.attempts, g.maxAttempts, g.last, CooldownRemaining(g, now), CanAttemptLogin(g, now))
  }
}
