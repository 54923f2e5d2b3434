/** The trading state machine: a fixed table of allowed transitions over the
    18 trading states, an unvalidated `SetState` and a validated
    `TransitionTo`, a retry counter that escalates to `CriticalError`, a wait
    deadline, a transition history and its statistics.

    Time is a parameter `now` (seconds); the machine itself is an immutable
    value and every operation returns the next value. */
module StateMachine {
  import opened Common
  import opened Models

  /** One recorded transition: where it came from, where it went, how long the
      old state lasted and the retry count at the moment of leaving it. */
  datatype HistoryEntry = HistoryEntry(
    from: TradingState,
    to: TradingState,
    duration: real,
    retryCount: nat)

  datatype Machine = Machine(
    current: TradingState,
    previous: Option<TradingState>,
    history: seq<HistoryEntry>,
    enteredAt: real,
    retryCount: nat,
    waitUntil: Option<real>)

  /** `max_retries`. */
  const MaxRetries: nat := 3

  /** A freshly constructed machine. */
  function Init(now: real): (m: Machine)
    ensures m.current == Idle && m.previous == None && m.retryCount == 0
    ensures m.history == [] && m.waitUntil == None
    ensures !IsWaiting(m, now)
  {
    Machine(Idle, None, [], now, 0, None)
  }

  /** The rule list of one state, in the order the table is built: the base
      targets, then `CriticalError` appended to every state but `CriticalError`
      itself (so `Error` lists `CriticalError` twice). */
  function Rules(s: TradingState): seq<TradingState>
  {
    var base := match s
      case Idle => [Initializing, Error]
      case Initializing => [LoginRequired, CheckingResources, Error]
      case LoginRequired => [LoggingIn, Error]
      case LoggingIn => [CheckingResources, LoginFailed, Error]
      case LoginFailed => [LoginRequired, WaitingNormal]
      case CheckingResources => [InsufficientFunds, CheckingInventory, MarketScanning, Error]
      case InsufficientFunds => [WithdrawingFromBank, WaitingBlocked, Error]
      case WithdrawingFromBank => [CheckingResources, InsufficientFunds, Error]
      case CheckingInventory => [DepositingToStorage, SpaceFull, MarketScanning, Error]
      case DepositingToStorage => [CheckingInventory, SpaceFull, MarketScanning, Error]
      case SpaceFull => [WaitingBlocked, CheckingInventory, Error]
      case MarketScanning => [Buying, Selling, WaitingNormal, CheckingResources, Error]
      case Buying => [MarketScanning, CheckingResources, CheckingInventory, Error]
      case Selling => [MarketScanning, CheckingResources, SpaceFull, Error]
      case WaitingNormal => [MarketScanning, CheckingResources, Error]
      case WaitingBlocked => [CheckingResources, CheckingInventory, Error]
      case Error => [CheckingResources, LoginRequired, CriticalError, Idle]
      case CriticalError => [Idle];
    if s != CriticalError then base + [CriticalError] else base
  }

  /** `can_transition_to`: the target is in the current state's rule list.
      The contract states the table's global shape: the emergency edge from
      every state, the single exit from `CriticalError`, the states that have
      no `Error` edge, and the absence of self-loops. */
  function CanTransitionTo(m: Machine, t: TradingState): (b: bool)
    ensures b <==> t in Rules(m.current)
    ensures t == CriticalError ==> (b <==> m.current != CriticalError)
    ensures m.current == CriticalError ==> (b <==> t == Idle)
    ensures t == Error ==> (b <==> m.current !in {LoginFailed, Error, CriticalError})
    ensures b ==> t != m.current
    ensures t == Idle ==> (b <==> m.current in {Error, CriticalError})
  {
    t in Rules(m.current)
  }

  /** The common effect of a transition, recorded at time `now`. */
  function Step(m: Machine, t: TradingState, now: real): Machine
  {
    Machine(
      t,
      Some(m.current),
      m.history + [HistoryEntry(m.current, t, now - m.enteredAt, m.retryCount)],
      now,
      if t in {Error, CriticalError} then m.retryCount else 0,
      None)
  }

  /** `set_state`: moves to any target, without consulting the table. */
  function SetState(m: Machine, t: TradingState, now: real): (r: Machine)
    ensures r.current == t && r.previous == Some(m.current)
    ensures |r.history| == |m.history| + 1 && r.history[..|m.history|] == m.history
    ensures r.history[|m.history|].from == m.current && r.history[|m.history|].to == t
    ensures r.history[|m.history|].retryCount == m.retryCount
    ensures t !in {Error, CriticalError} ==> r.retryCount == 0
    ensures t in {Error, CriticalError} ==> r.retryCount == m.retryCount
    ensures r.waitUntil == None && !IsWaiting(r, now)
  {
    Step(m, t, now)
  }

  /** Result of `transition_to`: the next machine, or the
      `StateTransitionError` raised with the machine left as it was. */
  datatype TransitionResult =
    | Moved(machine: Machine)
    | InvalidTransition(machine: Machine)

  /** `transition_to`: a validated transition. */
  function TransitionTo(m: Machine, t: TradingState, now: real): (r: TransitionResult)
    ensures r.InvalidTransition? <==> !CanTransitionTo(m, t)
    ensures r.InvalidTransition? ==> r.machine == m
    ensures r.Moved? ==> r.machine == SetState(m, t, now)
  {
    if !CanTransitionTo(m, t) then InvalidTransition(m) else Moved(Step(m, t, now))
  }

  /** Result of `handle_error`: the handler's boolean answer (keep going or
      not) with the new machine, or the `StateTransitionError` it lets escape,
      in which case the retry count has already been incremented. */
  datatype ErrorOutcome =
    | Handled(machine: Machine, keepGoing: bool)
    | Raised(machine: Machine)

  /** `handle_error`: count the error, then enter `CriticalError` once the
      count exceeds `MaxRetries`, otherwise enter `Error`. */
  function HandleError(m: Machine, now: real): (r: ErrorOutcome)
    ensures r.machine.retryCount == m.retryCount + 1
    ensures r.Handled? ==> (r.keepGoing <==> m.retryCount + 1 <= MaxRetries)
    ensures r.Handled? ==> r.machine.current == (if r.keepGoing then Error else CriticalError)
    ensures r.Handled? ==> r.machine.previous == Some(m.current)
    ensures r.Raised? ==> r.machine == m.(retryCount := m.retryCount + 1)
    ensures r.Raised? <==>
      (if m.retryCount + 1 > MaxRetries then m.current == CriticalError
       else m.current in {LoginFailed, Error, CriticalError})
  {
    var counted := m.(retryCount := m.retryCount + 1);
    var target := if counted.retryCount > MaxRetries then CriticalError else Error;
    match TransitionTo(counted, target, now)
    case Moved(next) => Handled(next, target == Error)
    case InvalidTransition(same) => Raised(same)
  }

  /** An error handled into `Error` cannot be followed by another handled
      `Error`: the next `handle_error` either escalates to `CriticalError`
      (retries exhausted) or raises, since `Error` has no edge to itself. */
  lemma {:induction false} SecondErrorEscalatesOrRaises(m: Machine, now: real, later: real)
    requires HandleError(m, now).Handled? && HandleError(m, now).keepGoing
    ensures var m' := HandleError(m, now).machine;
            var r := HandleError(m', later);
            (m'.retryCount + 1 > MaxRetries ==> r == Handled(r.machine, false))
            && (m'.retryCount + 1 <= MaxRetries ==> r.Raised?)
  {
    var m' := HandleError(m, now).machine;
    assert m'.current == Error;
    var r := HandleError(m', later);
    assert CanTransitionTo(m', CriticalError);
    assert !CanTransitionTo(m', Error);
  }

  /** Recovering from `Error` into a working state resets the retry count,
      so the next error is counted as the first again. */
  lemma {:induction false} RetryResetsOnRecovery(m: Machine, t: TradingState, now: real)
    requires m.current == Error && t !in {Error, CriticalError}
    requires CanTransitionTo(m, t)
    ensures TransitionTo(m, t, now).machine.retryCount == 0
    ensures HandleError(TransitionTo(m, t, now).machine, now).machine.retryCount == 1
  {
    var next := TransitionTo(m, t, now).machine;
    assert next == SetState(m, t, now);
  }

  // ---------------------------------------------------------------------
  // Wait deadline

  /** `set_wait_condition`: wait until `seconds` after `now`. */
  function SetWaitCondition(m: Machine, seconds: int, now: real): (r: Machine)
    ensures r.current == m.current && r.history == m.history && r.retryCount == m.retryCount
    ensures seconds > 0 ==> IsWaiting(r, now)
    ensures WaitRemaining(r, now) == Max(0, seconds)
  {
    m.(waitUntil := Some(now + seconds as real))
  }

  /** `is_waiting`: a deadline is set and lies in the future. */
  predicate IsWaiting(m: Machine, now: real)
  {
    m.waitUntil.Some? && now < m.waitUntil.value
  }

  /** A wait only ends: a machine waiting now was waiting at every earlier
      time, and no machine is waiting once its deadline has passed. */
  lemma WaitingOnlyEnds(m: Machine, earlier: real, now: real)
    requires earlier <= now
    ensures IsWaiting(m, now) ==> IsWaiting(m, earlier)
    ensures m.waitUntil.Some? && m.waitUntil.value <= now ==> !IsWaiting(m, now)
  {
  }

  /** `get_wait_remaining`: whole seconds left, truncated, never negative. */
  function WaitRemaining(m: Machine, now: real): (n: nat)
    ensures n > 0 ==> IsWaiting(m, now)
    ensures IsWaiting(m, now) ==> n as real <= m.waitUntil.value - now < n as real + 1.0
    ensures m.waitUntil == None ==> n == 0
  {
    if m.waitUntil == None then 0 else Max(0, Trunc(m.waitUntil.value - now))
  }

  // ---------------------------------------------------------------------
  // History statistics

  datatype StateStat = StateStat(count: nat, totalDuration: real)
  {
    /** `average_duration`. */
    function Average(): real
      requires count > 0
    {
      totalDuration / count as real
    }
  }

  datatype Statistics = Statistics(
    totalTransitions: nat,
    totalDuration: real,
    perState: map<TradingState, StateStat>,
    current: TradingState,
    currentDuration: real)

  /** How many recorded transitions left state `s`. */
  function CountFrom(h: seq<HistoryEntry>, s: TradingState): nat
  {
    if |h| == 0 then 0 else CountFrom(h[..|h| - 1], s) + (if h[|h| - 1].from == s then 1 else 0)
  }

  /** Total time spent in state `s` over the recorded transitions. */
  function DurationFrom(h: seq<HistoryEntry>, s: TradingState): real
  {
    if |h| == 0 then 0.0 else DurationFrom(h[..|h| - 1], s) + (if h[|h| - 1].from == s then h[|h| - 1].duration else 0.0)
  }

  function TotalDuration(h: seq<HistoryEntry>): real
  {
    if |h| == 0 then 0.0 else TotalDuration(h[..|h| - 1]) + h[|h| - 1].duration
  }

  /** The per-state table built by one pass over the history. Every state
      that some transition left has an entry, with exactly its count and
      total duration; no other state has one. */
  function PerState(h: seq<HistoryEntry>): (r: map<TradingState, StateStat>)
    ensures forall s :: s in r <==> CountFrom(h, s) > 0
    ensures forall s :: s in r ==> r[s] == StateStat(CountFrom(h, s), DurationFrom(h, s))
  {
    if |h| == 0 then map[]
    else
      var e := h[|h| - 1];
      var r := PerState(h[..|h| - 1]);
      var prior := if e.from in r then r[e.from] else StateStat(0, 0.0);
      assert forall s :: CountFrom(h, s) == CountFrom(h[..|h| - 1], s) + (if e.from == s then 1 else 0);
      assert forall s :: DurationFrom(h, s) == DurationFrom(h[..|h| - 1], s) + (if e.from == s then e.duration else 0.0);
      assert e.from !in r ==> DurationFrom(h[..|h| - 1], e.from) == 0.0 by {
        if e.from !in r { DurationFromUncounted(h[..|h| - 1], e.from); }
      }
      r[e.from := StateStat(prior.count + 1, prior.totalDuration + e.duration)]
  }

  /** `get_state_statistics`: nothing for an empty history, otherwise the
      transition count, the summed durations and the per-state table. */
  function GetStateStatistics(m: Machine, now: real): (r: Option<Statistics>)
    ensures r.None? <==> m.history == []
    ensures r.Some? ==> r.value.totalTransitions == |m.history|
    ensures r.Some? ==> forall s :: s in r.value.perState ==> r.value.perState[s].count > 0
    ensures r.Some? ==> forall i :: 0 <= i < |m.history| ==> m.history[i].from in r.value.perState
  {
    if m.history == [] then None
    else
      var table := PerState(m.history);
      assert forall i :: 0 <= i < |m.history| ==> CountFrom(m.history, m.history[i].from) > 0 by {
        forall i | 0 <= i < |m.history| ensures CountFrom(m.history, m.history[i].from) > 0 {
          CountFromPositive(m.history, i);
        }
      }
      Some(Statistics(|m.history|, TotalDuration(m.history), table, m.current, now - m.enteredAt))
  }

  /** A state that some entry left is counted at least once. */
  lemma {:induction false} CountFromPositive(h: seq<HistoryEntry>, i: nat)
    requires i < |h|
    ensures CountFrom(h, h[i].from) > 0
  {
    if i < |h| - 1 {
      assert h[..|h| - 1][i] == h[i];
      CountFromPositive(h[..|h| - 1], i);
    }
  }

  /** A state no transition left has accumulated no time. */
  lemma {:induction false} DurationFromUncounted(h: seq<HistoryEntry>, s: TradingState)
    requires CountFrom(h, s) == 0
    ensures DurationFrom(h, s) == 0.0
  {
    if |h| > 0 {
      DurationFromUncounted(h[..|h| - 1], s);
    }
  }

  /** The list of every trading state, each once. */
  function AllStates(): (r: seq<TradingState>)
    ensures |r| == 18 && Distinct(r)
  {
    var r := [Idle, Initializing, LoginRequired, LoggingIn, LoginFailed, CheckingResources,
              InsufficientFunds, WithdrawingFromBank, CheckingInventory, DepositingToStorage,
              SpaceFull, MarketScanning, Buying, Selling, WaitingNormal, WaitingBlocked,
              Error, CriticalError];
    assert forall k :: 0 <= k < |r| ==> Ordinal(r[k]) == k;
    OrdinalsDistinct(r);
    r
  }

  /** The position of a state in the enumeration. */
  function Ordinal(s: TradingState): nat
  {
    match s
    case Idle => 0
    case Initializing => 1
    case LoginRequired => 2
    case LoggingIn => 3
    case LoginFailed => 4
    case CheckingResources => 5
    case InsufficientFunds => 6
    case WithdrawingFromBank => 7
    case CheckingInventory => 8
    case DepositingToStorage => 9
    case SpaceFull => 10
    case MarketScanning => 11
    case Buying => 12
    case Selling => 13
    case WaitingNormal => 14
    case WaitingBlocked => 15
    case Error => 16
    case CriticalError => 17
  }

  /** States listed at their own ordinals are all different. */
  lemma OrdinalsDistinct(r: seq<TradingState>)
    requires forall k :: 0 <= k < |r| ==> Ordinal(r[k]) == k
    ensures Distinct(r)
  {
  }

  lemma AllStatesComplete(s: TradingState)
    ensures s in AllStates()
  {
    match s
    case Idle => {}
    case Initializing => {}
    case LoginRequired => {}
    case LoggingIn => {}
    case LoginFailed => {}
    case CheckingResources => {}
    case InsufficientFunds => {}
    case WithdrawingFromBank => {}
    case CheckingInventory => {}
    case DepositingToStorage => {}
    case SpaceFull => {}
    case MarketScanning => {}
    case Buying => {}
    case Selling => {}
    case WaitingNormal => {}
    case WaitingBlocked => {}
    case Error => {}
    case CriticalError => {}
  }

  predicate Distinct(states: seq<TradingState>)
  {
    forall a, b :: 0 <= a < b < |states| ==> states[a] != states[b]
  }

  /** The per-state counts of the listed states. */
  function SumCounts(h: seq<HistoryEntry>, states: seq<TradingState>): nat
  {
    if |states| == 0 then 0 else CountFrom(h, states[0]) + SumCounts(h, states[1..])
  }

  /** How many recorded transitions left one of the listed states. */
  function CountIn(h: seq<HistoryEntry>, states: seq<TradingState>): nat
  {
    if |h| == 0 then 0 else CountIn(h[..|h| - 1], states) + (if h[|h| - 1].from in states then 1 else 0)
  }

  /** Counting the first listed state apart from the others. */
  lemma {:induction false} CountInSplit(h: seq<HistoryEntry>, s: TradingState, rest: seq<TradingState>)
    requires s !in rest
    ensures CountIn(h, [s] + rest) == CountFrom(h, s) + CountIn(h, rest)
  {
    if |h| > 0 {
      CountInSplit(h[..|h| - 1], s, rest);
    }
  }

  lemma {:induction false} CountInNone(h: seq<HistoryEntry>, states: seq<TradingState>)
    requires states == []
    ensures CountIn(h, states) == 0
  {
    if |h| > 0 {
      CountInNone(h[..|h| - 1], states);
    }
  }

  /** Summing the per-state counts of distinct states counts the transitions
      that left any of them. */
  lemma {:induction false} SumCountsIsCountIn(h: seq<HistoryEntry>, states: seq<TradingState>)
    requires Distinct(states)
    ensures SumCounts(h, states) == CountIn(h, states)
  {
    if |states| > 0 {
      var rest := states[1..];
      assert Distinct(rest) by {
        forall a, b | 0 <= a < b < |rest| ensures rest[a] != rest[b] {
          assert rest[a] == states[a + 1] && rest[b] == states[b + 1];
        }
      }
      SumCountsIsCountIn(h, rest);
      assert states[0] !in rest by {
        forall a | 0 <= a < |rest| ensures rest[a] != states[0] {
          assert rest[a] == states[a + 1];
        }
      }
      assert states == [states[0]] + states[1..];
      CountInSplit(h, states[0], states[1..]);
    } else {
      CountInNone(h, states);
    }
  }

  lemma {:induction false} CountInAll(h: seq<HistoryEntry>)
    ensures CountIn(h, AllStates()) == |h|
  {
    if |h| > 0 {
      CountInAll(h[..|h| - 1]);
      AllStatesComplete(h[|h| - 1].from);
    }
  }

  /** The per-state counts of the statistics table add up to the number of
      transitions: counting by origin partitions the history. */
  lemma CountsPartitionHistory(h: seq<HistoryEntry>)
    ensures SumCounts(h, AllStates()) == |h|
  {
    SumCountsIsCountIn(h, AllStates());
    CountInAll(h);
  }

  // ---------------------------------------------------------------------
  // Reset

  /** `reset`: back to the initial configuration, keeping the history. */
  function Reset(m: Machine, now: real): (r: Machine)
    ensures r == Init(now).(history := m.history)
    ensures r.current == Idle && r.previous == None && r.retryCount == 0 && r.waitUntil == None
    ensures r.history == m.history
  {
    Machine(Idle, None, m.history, now, 0, None)
  }
}
