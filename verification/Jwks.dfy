// Concurrent callers of the cached key set (src/infrastructure/accounts.rs): one step per lock or network action.
module Jwks {
  import opened Wrappers

  type Caller = nat
  type Keys = nat                                   // one published key set

  const MAX_AGE: int := 3_600_000                   // milliseconds
  const REFETCH_INTERVAL: int := 30_000

  datatype Cached = Cached(keys: Keys, fetchedAt: int)

  /** Where a caller is. A forced call is only made by a caller whose unforced call returned keys. */
  datatype Phase =
    | Idle
    | Asking                                        // an unforced call, before its look at the cache
    | Answered                                      // an unforced call returned keys
    | Waiting(forced: bool)                         // for the fetch lock
    | Holding(forced: bool)                         // has the lock, about to look again
    | Starting(forced: bool)                        // decided to fetch
    | Fetching(forced: bool)

  datatype State = State(cache: Option<Cached>, lastForced: Option<int>, lock: Option<Caller>,
                         phases: map<Caller, Phase>)

  const COLD := State(None, None, None, map[])

  datatype Action = Call | CallForced | Look | Acquire | Decide | Start | Fetched(keys: Keys) | FetchFailed | Cancel

  datatype Step = Step(who: Caller, action: Action, now: int)

  datatype Answer = Returns(keys: Keys) | Unavailable | NoAnswer

  function PhaseOf(s: State, c: Caller): Phase { if c in s.phases then s.phases[c] else Idle }

  predicate Fresh(s: State, now: int) { s.cache.Some? && now - s.cache.value.fetchedAt < MAX_AGE }

  predicate ForcedRecently(s: State, now: int) { s.lastForced.Some? && now - s.lastForced.value < REFETCH_INTERVAL }

  predicate HasLock(p: Phase) { p.Holding? || p.Starting? || p.Fetching? }

  predicate Enabled(s: State, step: Step) {
    var p := PhaseOf(s, step.who);
    match step.action
    case Call => p.Idle? || p.Answered?
    case CallForced => p.Answered?
    case Look => p.Asking?
    case Acquire => p.Waiting? && s.lock.None?
    case Decide => p.Holding?
    case Start => p.Starting?
    case Fetched(_) => p.Fetching?
    case FetchFailed => p.Fetching?
    case Cancel => true
  }

  function Move(s: State, c: Caller, p: Phase): State { s.(phases := s.phases[c := p]) }

  /** The call ends and its caller lets go of the lock. */
  function Finish(s: State, c: Caller, forced: bool): State {
    Move(s, c, if forced || s.cache.None? then Idle else Answered).(lock := None)
  }

  function Next(s: State, step: Step): (State, Answer)
    requires Enabled(s, step)
  {
    var (c, now) := (step.who, step.now);
    var p := PhaseOf(s, c);
    match step.action
    case Call => (Move(s, c, Asking), NoAnswer)
    case CallForced => (Move(s, c, Waiting(true)), NoAnswer)
    case Look =>
      if Fresh(s, now) then (Move(s, c, Answered), Returns(s.cache.value.keys))
      else (Move(s, c, Waiting(false)), NoAnswer)
    case Acquire => (Move(s, c, Holding(p.forced)).(lock := Some(c)), NoAnswer)
    case Decide =>
      if s.cache.Some? && ((p.forced && ForcedRecently(s, now)) || (!p.forced && Fresh(s, now)))
      then (Finish(s, c, p.forced), Returns(s.cache.value.keys))
      else (Move(s, c, Starting(p.forced)), NoAnswer)
    case Start => (Move(if p.forced then s.(lastForced := Some(now)) else s, c, Fetching(p.forced)), NoAnswer)
    case Fetched(keys) => (Finish(s.(cache := Some(Cached(keys, now))), c, p.forced), Returns(keys))
    case FetchFailed => (Finish(s, c, p.forced), if s.cache.Some? then Returns(s.cache.value.keys) else Unavailable)
    case Cancel => (Move(s, c, Idle).(lock := if s.lock == Some(c) then None else s.lock), NoAnswer)
  }

  // ---- the invariant ----

  predicate Forced(p: Phase) { (p.Waiting? || p.Holding? || p.Starting? || p.Fetching?) && p.forced }

  predicate CallerOk(s: State, c: Caller, now: int) {
    var p := PhaseOf(s, c);
    && (HasLock(p) <==> s.lock == Some(c))
    && (Forced(p) || p.Answered? ==> s.cache.Some?)
    && (p == Starting(true) ==> !ForcedRecently(s, now))
    && (p == Starting(false) || p == Fetching(false) ==> !Fresh(s, now))
  }

  ghost predicate Inv(s: State, now: int) {
    && (forall c :: CallerOk(s, c, now))
    && (s.cache.Some? ==> s.cache.value.fetchedAt <= now)
    && (s.lastForced.Some? ==> s.lastForced.value <= now)
  }

  lemma ColdHolds(now: int)
    ensures Inv(COLD, now)
  {}

  lemma {:induction false} StepKeepsInv(s: State, clock: int, step: Step)
    requires Inv(s, clock) && clock <= step.now && Enabled(s, step)
    ensures Inv(Next(s, step).0, step.now)
  {
    var n := Next(s, step).0;
    forall c ensures CallerOk(n, c, step.now) {
      assert CallerOk(s, c, clock) && CallerOk(s, step.who, clock);
    }
  }

  // ---- runs ----

  predicate IsRun(s: State, clock: int, steps: seq<Step>)
    decreases |steps|
  {
    steps == [] || (clock <= steps[0].now && Enabled(s, steps[0])
                    && IsRun(Next(s, steps[0]).0, steps[0].now, steps[1..]))
  }

  function Final(s: State, clock: int, steps: seq<Step>): State
    requires IsRun(s, clock, steps)
    decreases |steps|
  {
    if steps == [] then s else Final(Next(s, steps[0]).0, steps[0].now, steps[1..])
  }

  predicate StartsForced(s: State, step: Step) { step.action.Start? && PhaseOf(s, step.who) == Starting(true) }

  /** When forced fetches start along a run. */
  function ForcedStarts(s: State, clock: int, steps: seq<Step>): seq<int>
    requires IsRun(s, clock, steps)
    decreases |steps|
  {
    if steps == [] then [] else
      (if StartsForced(s, steps[0]) then [steps[0].now] else [])
        + ForcedStarts(Next(s, steps[0]).0, steps[0].now, steps[1..])
  }

  predicate Spaced(starts: seq<int>) { forall i | 0 < i < |starts| :: starts[i] - starts[i - 1] >= REFETCH_INTERVAL }

  function LastClock(clock: int, steps: seq<Step>): int { if steps == [] then clock else steps[|steps| - 1].now }

  lemma {:induction false} RunsKeepInv(s: State, clock: int, steps: seq<Step>)
    requires Inv(s, clock) && IsRun(s, clock, steps)
    ensures Inv(Final(s, clock, steps), LastClock(clock, steps))
    decreases |steps|
  {
    if steps != [] {
      StepKeepsInv(s, clock, steps[0]);
      RunsKeepInv(Next(s, steps[0]).0, steps[0].now, steps[1..]);
    }
  }

  /** Where some run from a cold start can be, with its clock at `now`. */
  ghost predicate Reachable(s: State, now: int) {
    exists clock, steps :: IsRun(COLD, clock, steps) && Final(COLD, clock, steps) == s && LastClock(clock, steps) == now
  }

  lemma ReachableHolds(s: State, now: int)
    requires Reachable(s, now)
    ensures Inv(s, now)
  {
    var clock, steps :| IsRun(COLD, clock, steps) && Final(COLD, clock, steps) == s && LastClock(clock, steps) == now;
    ColdHolds(clock);
    RunsKeepInv(COLD, clock, steps);
  }

  lemma {:induction false} SpacedFrom(s: State, clock: int, steps: seq<Step>)
    requires Inv(s, clock) && IsRun(s, clock, steps)
    ensures var starts := ForcedStarts(s, clock, steps);
      Spaced(starts) && (starts != [] && s.lastForced.Some? ==> starts[0] - s.lastForced.value >= REFETCH_INTERVAL)
    decreases |steps|
  {
    if steps != [] {
      var step := steps[0];
      StepKeepsInv(s, clock, step);
      SpacedFrom(Next(s, step).0, step.now, steps[1..]);
      assert CallerOk(s, step.who, clock);
    }
  }

  // ---- what callers can rely on, over every run from a cold start ----

  /** Forced fetches start at least 30 seconds apart, over every interleaving of callers, failures and cancellations. */
  lemma ForcedStartsAreSpaced(clock: int, steps: seq<Step>)
    requires IsRun(COLD, clock, steps)
    ensures Spaced(ForcedStarts(COLD, clock, steps))
  {
    ColdHolds(clock);
    SpacedFrom(COLD, clock, steps);
  }

  /** At most one fetch is under way at any time. */
  lemma FetchesNeverOverlap(s: State, now: int, a: Caller, b: Caller)
    requires Reachable(s, now) && PhaseOf(s, a).Fetching? && PhaseOf(s, b).Fetching?
    ensures a == b
  {
    ReachableHolds(s, now);
    assert CallerOk(s, a, now) && CallerOk(s, b, now);
  }

  /** Keys once obtained are never lost, and never replaced by older ones. */
  lemma KeysAreNeverLost(s: State, clock: int, steps: seq<Step>)
    requires Reachable(s, clock) && IsRun(s, clock, steps) && s.cache.Some?
    ensures var n := Final(s, clock, steps);
      n.cache.Some? && n.cache.value.fetchedAt >= s.cache.value.fetchedAt
  {
    ReachableHolds(s, clock);
    CacheMovesForward(s, clock, steps);
  }

  lemma {:induction false} CacheMovesForward(s: State, clock: int, steps: seq<Step>)
    requires Inv(s, clock) && IsRun(s, clock, steps) && s.cache.Some?
    ensures var n := Final(s, clock, steps);
      n.cache.Some? && n.cache.value.fetchedAt >= s.cache.value.fetchedAt
    decreases |steps|
  {
    if steps != [] {
      StepKeepsInv(s, clock, steps[0]);
      CacheMovesForward(Next(s, steps[0]).0, steps[0].now, steps[1..]);
    }
  }

  predicate Unforced(p: Phase) { p.Asking? || ((p.Holding? || p.Fetching?) && !p.forced) }

  /**
   * Every call that returns keys returns the newest ones; for an unforced call they are less than an hour old unless
   * its own fetch has just failed. Only an unforced call that never saw any keys can be refused.
   */
  lemma AnswersAreCurrent(s: State, clock: int, step: Step)
    requires Reachable(s, clock) && clock <= step.now && Enabled(s, step)
    ensures var (n, answer) := Next(s, step);
      && (answer.Returns? ==> n.cache.Some? && answer.keys == n.cache.value.keys)
      && (answer.Returns? && Unforced(PhaseOf(s, step.who)) ==> Fresh(n, step.now) || step.action.FetchFailed?)
      && (answer.Unavailable? ==> s.cache.None? && PhaseOf(s, step.who) == Fetching(false))
  {
    ReachableHolds(s, clock);
    assert CallerOk(s, step.who, clock);
  }

  /** An unforced fetch is under way only while no key set less than an hour old is cached. */
  lemma UnforcedFetchesOnlyWhenStale(s: State, now: int, c: Caller)
    requires Reachable(s, now) && PhaseOf(s, c) == Fetching(false)
    ensures !Fresh(s, now)
  {
    ReachableHolds(s, now);
    assert CallerOk(s, c, now);
  }

  /** A forced call is answered without a fetch exactly when one was started in the last 30 seconds. */
  lemma ForcedCallFetchesIff(s: State, clock: int, step: Step)
    requires Reachable(s, clock) && clock <= step.now && Enabled(s, step)
    requires step.action.Decide? && PhaseOf(s, step.who) == Holding(true)
    ensures Next(s, step).1.Returns? <==> ForcedRecently(s, step.now)
  {
    ReachableHolds(s, clock);
    assert CallerOk(s, step.who, clock);
  }

  /** The waiting period runs from the last forced fetch: no unforced one lengthens or shortens it. */
  lemma {:induction false} LastForcedIsLastStart(s: State, clock: int, steps: seq<Step>)
    requires IsRun(s, clock, steps)
    ensures var starts := ForcedStarts(s, clock, steps);
      Final(s, clock, steps).lastForced == if starts == [] then s.lastForced else Some(starts[|starts| - 1])
    decreases |steps|
  {
    if steps != [] { LastForcedIsLastStart(Next(s, steps[0]).0, steps[0].now, steps[1..]); }
  }

  /** An unforced call waits for a lock exactly when there is no key set under an hour old; else it has its answer. */
  lemma LookWaitsIff(s: State, step: Step)
    requires Enabled(s, step) && step.action.Look?
    ensures var (n, answer) := Next(s, step);
      if s.cache.Some? && step.now - s.cache.value.fetchedAt < 3600 * 1000
      then answer == Returns(s.cache.value.keys) && PhaseOf(n, step.who) == Answered
      else answer == NoAnswer && PhaseOf(n, step.who) == Waiting(false)
  {}
}
