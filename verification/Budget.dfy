// Per-account request admission (src/api/budget.rs).
//
// The program keeps, per caller, a queue of recent admission instants and prunes it as it goes. The
// specification below never prunes: it looks at the whole history of admissions.
module Budget {
  import opened Finite

  const WINDOW: int := 60
  const LIMIT: nat := 300
  const CAPACITY: nat := 10_000

  datatype Admission = Admission(caller: string, at: int)

  /** Every instant at which `caller` was admitted, oldest first. */
  function Times(log: seq<Admission>, caller: string): (times: seq<int>)
  {
    if log == [] then [] else
      var rest := Times(log[..|log| - 1], caller);
      if log[|log| - 1].caller == caller then rest + [log[|log| - 1].at] else rest
  }

  /** The entries of `times` after `since`, in order. */
  function Later(times: seq<int>, since: int): (recent: seq<int>)
  {
    if times == [] then [] else
      var rest := Later(times[..|times| - 1], since);
      if times[|times| - 1] > since then rest + [times[|times| - 1]] else rest
  }

  function Recent(log: seq<Admission>, caller: string, since: int): seq<int> {
    Later(Times(log, caller), since)
  }

  function Callers(log: seq<Admission>): set<string> {
    set e | e in log :: e.caller
  }

  /** The callers admitted later than `since`. */
  ghost function LiveCallers(log: seq<Admission>, since: int): set<string> {
    set c | c in Callers(log) && Recent(log, c, since) != []
  }

  /** The admission rule, stated on the full history. */
  ghost predicate Admits(log: seq<Admission>, caller: string, now: int) {
    var recent := Recent(log, caller, now - WINDOW);
    && |recent| < LIMIT
    && (recent != [] || |LiveCallers(log, now - WINDOW)| < CAPACITY)
  }

  // ---- facts about histories ----

  ghost predicate Sorted(times: seq<int>, clock: int) {
    && (forall i, j | 0 <= i < j < |times| :: times[i] <= times[j])
    && (forall i | 0 <= i < |times| :: times[i] <= clock)
  }

  ghost predicate Chronological(log: seq<Admission>, clock: int) {
    log == [] || (log[|log| - 1].at <= clock && Chronological(log[..|log| - 1], log[|log| - 1].at))
  }

  lemma {:induction false} TimesSorted(log: seq<Admission>, clock: int, caller: string)
    requires Chronological(log, clock)
    ensures Sorted(Times(log, caller), clock)
  {
    if log != [] {
      TimesSorted(log[..|log| - 1], log[|log| - 1].at, caller);
    }
  }

  lemma {:induction false} OnlyCallersHaveTimes(log: seq<Admission>, caller: string)
    ensures Times(log, caller) != [] <==> caller in Callers(log)
  {
    if log != [] {
      var front, last := log[..|log| - 1], log[|log| - 1];
      assert log == front + [last];
      OnlyCallersHaveTimes(front, caller);
      assert Callers(log) == Callers(front) + {last.caller};
    }
  }

  lemma LiveIffRecent(log: seq<Admission>, caller: string, since: int)
    ensures caller in LiveCallers(log, since) <==> Recent(log, caller, since) != []
  {
    OnlyCallersHaveTimes(log, caller);
  }

  /** On a sorted queue, moving the horizon to `since` drops exactly the prefix not after it. */
  lemma {:induction false} HorizonCutsPrefix(times: seq<int>, since: int, k: nat)
    requires k <= |times|
    requires forall i | 0 <= i < k :: times[i] <= since
    requires forall i | k <= i < |times| :: times[i] > since
    ensures Later(times, since) == times[k..]
  {
    if times != [] {
      var front := times[..|times| - 1];
      HorizonCutsPrefix(front, since, if k == |times| then k - 1 else k);
      if k < |times| { assert times[k..] == front[k..] + [times[|times| - 1]]; }
    }
  }

  lemma {:induction false} LaterTwice(times: seq<int>, since: int, later: int)
    requires since <= later
    ensures Later(Later(times, since), later) == Later(times, later)
  {
    if times != [] {
      var front, last := times[..|times| - 1], times[|times| - 1];
      LaterTwice(front, since, later);
      if last > since {
        assert (Later(front, since) + [last])[..|Later(front, since)|] == Later(front, since);
      }
    }
  }

  lemma {:induction false} LaterSorted(times: seq<int>, clock: int, since: int)
    requires Sorted(times, clock)
    ensures Sorted(Later(times, since), clock)
  {
    if times != [] {
      LaterSorted(times[..|times| - 1], times[|times| - 1], since);
    }
  }

  // ---- the pruned queues still carry the whole decision ----

  /** `state[c]` is what remains of c's history after the horizon `since[c]`; callers without a queue are not live. */
  ghost predicate Summarises(state: map<string, seq<int>>, since: map<string, int>, log: seq<Admission>, clock: int) {
    && Chronological(log, clock)
    && (forall c | c in state ::
          c in since && since[c] <= clock - WINDOW && state[c] != [] && state[c] == Recent(log, c, since[c]))
    && (forall c | c !in state :: Recent(log, c, clock - WINDOW) == [])
  }

  function Retained(state: map<string, seq<int>>, now: int): map<string, seq<int>>
    requires forall c | c in state :: state[c] != []
  {
    map c | c in state && now - state[c][|state[c]| - 1] < WINDOW :: state[c]
  }

  lemma QueueSorted(state: map<string, seq<int>>, since: map<string, int>, log: seq<Admission>, clock: int, c: string)
    requires Summarises(state, since, log, clock) && c in state
    ensures Sorted(state[c], clock)
  {
    TimesSorted(log, clock, c);
    LaterSorted(Times(log, c), clock, since[c]);
  }

  lemma {:induction false} LiveIffRetained(state: map<string, seq<int>>, since: map<string, int>, log: seq<Admission>,
                                           clock: int, now: int, c: string)
    requires Summarises(state, since, log, clock) && clock <= now
    ensures c in Retained(state, now) <==> Recent(log, c, now - WINDOW) != []
  {
    if c in state {
      LaterTwice(Times(log, c), since[c], now - WINDOW);
      QueueSorted(state, since, log, clock, c);
      NewestDecides(state[c], clock, now - WINDOW);
    } else {
      LaterTwice(Times(log, c), clock - WINDOW, now - WINDOW);
    }
  }

  /** A sorted queue has an entry past the horizon exactly when its newest is. */
  lemma NewestDecides(queue: seq<int>, clock: int, horizon: int)
    requires Sorted(queue, clock) && queue != []
    ensures queue[|queue| - 1] > horizon <==> Later(queue, horizon) != []
  {
    if queue[|queue| - 1] <= horizon { HorizonCutsPrefix(queue, horizon, |queue|); }
  }

  /** The test on each queue's newest entry keeps exactly the live callers. */
  lemma RetentionKeepsLive(state: map<string, seq<int>>, since: map<string, int>, log: seq<Admission>, clock: int,
                           now: int)
    requires Summarises(state, since, log, clock) && clock <= now
    ensures Summarises(Retained(state, now), since, log, now)
    ensures Retained(state, now).Keys == LiveCallers(log, now - WINDOW)
  {
    forall c
      ensures c in Retained(state, now) <==> Recent(log, c, now - WINDOW) != []
      ensures c in Retained(state, now).Keys <==> c in LiveCallers(log, now - WINDOW)
    {
      LiveIffRetained(state, since, log, clock, now, c);
      LiveIffRecent(log, c, now - WINDOW);
    }
  }

  /** Appending one admission extends that caller's history and nobody else's. */
  lemma RecentAfterAppend(log: seq<Admission>, e: Admission, c: string, since: int)
    ensures Recent(log + [e], c, since) ==
            if c == e.caller && e.at > since then Recent(log, c, since) + [e.at] else Recent(log, c, since)
  {}

  lemma {:induction false} RecordAdmission(state: map<string, seq<int>>, since: map<string, int>, log: seq<Admission>,
                                           caller: string, now: int)
    requires Summarises(state, since, log, now)
    ensures Summarises(state[caller := Recent(log, caller, now - WINDOW) + [now]], since[caller := now - WINDOW],
                       log + [Admission(caller, now)], now)
  {
    var e := Admission(caller, now);
    forall c, horizon { RecentAfterAppend(log, e, c, horizon); }
    assert (log + [e])[..|log|] == log;
  }

  /** Pops expired instants off the front of a queue. */
  method Prune(queue: seq<int>, now: int) returns (window: seq<int>)
    requires Sorted(queue, now)
    ensures window == Later(queue, now - WINDOW)
  {
    window := queue;
    ghost var dropped: nat := 0;
    while window != [] && now - window[0] >= WINDOW
      invariant dropped <= |queue| && window == queue[dropped..]
      invariant forall i | 0 <= i < dropped :: queue[i] <= now - WINDOW
      decreases |window|
    {
      window := window[1..];
      dropped := dropped + 1;
    }
    HorizonCutsPrefix(queue, now - WINDOW, dropped);
  }

  /** The shared budget: a map of queues, changed in place by every admission. */
  class RequestBudget {
    var state: map<string, seq<int>>
    ghost var log: seq<Admission>
    ghost var clock: int
    ghost var since: map<string, int>   // the horizon each queue was last pruned to

    ghost predicate Valid()
      reads this
    {
      Summarises(state, since, log, clock) && Reachable(log)
    }

    constructor ()
      ensures Valid() && log == []
    {
      state, log, clock, since := map[], [], 0, map[];
    }

    /** Accepts exactly when the full history says so, whatever was pruned before. */
    method Admit(caller: string, now: int) returns (ok: bool)
      requires Valid() && clock <= now
      modifies this
      ensures Valid() && clock == now
      ensures ok <==> Admits(old(log), caller, now)
      ensures log == if ok then old(log) + [Admission(caller, now)] else old(log)
    {
      AdmissionKeepsReachable(log, clock, caller, now);
      RetentionKeepsLive(state, since, log, clock, now);
      LiveIffRecent(log, caller, now - WINDOW);
      state, clock := Retained(state, now), now;
      if |state| >= CAPACITY && caller !in state {
        assert |state| == |state.Keys|;
        return false;
      }
      assert |state| == |state.Keys|;
      ok := AdmitWithin(caller, now);
    }

    /** The caller has a place; only its own window is left to decide. */
    method AdmitWithin(caller: string, now: int) returns (ok: bool)
      requires Summarises(state, since, log, now)
      modifies this`state, this`since, this`log
      ensures Summarises(state, since, log, now)
      ensures ok <==> |Recent(old(log), caller, now - WINDOW)| < LIMIT
      ensures log == if ok then old(log) + [Admission(caller, now)] else old(log)
    {
      var queue := if caller in state then state[caller] else [];
      QueueIsRecent(state, since, log, now, caller, queue);
      var window := Prune(queue, now);
      if |window| >= LIMIT {
        state, since := state[caller := window], since[caller := now - WINDOW];
        return false;
      }
      RecordAdmission(state, since, log, caller, now);
      state, since := state[caller := window + [now]], since[caller := now - WINDOW];
      log := log + [Admission(caller, now)];
      return true;
    }
  }

  lemma QueueIsRecent(state: map<string, seq<int>>, since: map<string, int>, log: seq<Admission>, clock: int,
                      caller: string,
                      queue: seq<int>)
    requires Summarises(state, since, log, clock) && queue == if caller in state then state[caller] else []
    ensures Sorted(queue, clock) && Later(queue, clock - WINDOW) == Recent(log, caller, clock - WINDOW)
  {
    if caller in state {
      QueueSorted(state, since, log, clock, caller);
      LaterTwice(Times(log, caller), since[caller], clock - WINDOW);
    }
  }

  // ---- what the rule guarantees over every run ----

  /** A history every entry of which was admitted by the rule, under a nondecreasing clock. */
  ghost predicate Reachable(log: seq<Admission>) {
    log == [] ||
    (var front, last := log[..|log| - 1], log[|log| - 1];
     Reachable(front) && (forall e | e in front :: e.at <= last.at) && Admits(front, last.caller, last.at))
  }

  /** How many admissions of `caller` fall in [from, to). */
  function CountIn(log: seq<Admission>, caller: string, from: int, to: int): nat {
    if log == [] then 0 else
      var last := log[|log| - 1];
      CountIn(log[..|log| - 1], caller, from, to) + if last.caller == caller && from <= last.at < to then 1 else 0
  }

  lemma {:induction false} CountWithinRecent(log: seq<Admission>, caller: string, from: int, to: int, since: int)
    requires since < from
    ensures CountIn(log, caller, from, to) <= |Recent(log, caller, since)|
  {
    if log != [] {
      var front, last := log[..|log| - 1], log[|log| - 1];
      CountWithinRecent(front, caller, from, to, since);
      assert last.caller == caller ==>
        (Times(front, caller) + [last.at])[..|Times(front, caller)|] == Times(front, caller);
    }
  }

  /** No 60-second window, wherever it starts, holds more than 300 admissions of one caller. */
  lemma {:induction false} NoWindowOverLimit(log: seq<Admission>, caller: string, from: int)
    requires Reachable(log)
    ensures CountIn(log, caller, from, from + WINDOW) <= LIMIT
  {
    if log != [] {
      var front, last := log[..|log| - 1], log[|log| - 1];
      NoWindowOverLimit(front, caller, from);
      if last.caller == caller && from <= last.at < from + WINDOW {
        CountWithinRecent(front, caller, from, from + WINDOW, last.at - WINDOW);
      }
    }
  }

  /** At no instant are more than 10,000 callers live. */
  lemma {:induction false} LiveCallersBounded(log: seq<Admission>, now: int)
    requires Reachable(log) && forall e | e in log :: e.at <= now
    ensures |LiveCallers(log, now - WINDOW)| <= CAPACITY
  {
    if log == [] {
      assert LiveCallers(log, now - WINDOW) == {};
    } else {
      var front, last := log[..|log| - 1], log[|log| - 1];
      LiveCallersBounded(front, last.at);
      LiveCallersGrow(front, last, now);
      assert log == front + [last];
    }
  }

  /** A request is refused only for the caller's 300 of the last minute or, to one without any, for 10,000 callers. */
  lemma RefusedOnlyAtLimits(log: seq<Admission>, caller: string, now: int)
    requires Reachable(log) && (forall e | e in log :: e.at <= now) && !Admits(log, caller, now)
    ensures |Recent(log, caller, now - 60)| >= 300
      || (Recent(log, caller, now - 60) == [] && |LiveCallers(log, now - 60)| == 10_000)
  {
    LiveCallersBounded(log, now);
  }

  lemma {:induction false} WithinClock(log: seq<Admission>, clock: int)
    requires Chronological(log, clock)
    ensures forall e | e in log :: e.at <= clock
  {
    if log != [] {
      WithinClock(log[..|log| - 1], log[|log| - 1].at);
      assert log == log[..|log| - 1] + [log[|log| - 1]];
    }
  }

  lemma AdmissionKeepsReachable(log: seq<Admission>, clock: int, caller: string, now: int)
    requires Reachable(log) && Chronological(log, clock) && clock <= now
    ensures Admits(log, caller, now) ==> Reachable(log + [Admission(caller, now)])
  {
    WithinClock(log, clock);
    assert (log + [Admission(caller, now)])[..|log|] == log;
  }

  /** Whatever requests a budget has answered, its history keeps to both limits. */
  lemma BudgetKeepsLimits(b: RequestBudget, caller: string, from: int)
    requires b.Valid()
    ensures CountIn(b.log, caller, from, from + WINDOW) <= LIMIT
    ensures |LiveCallers(b.log, b.clock - WINDOW)| <= CAPACITY
  {
    NoWindowOverLimit(b.log, caller, from);
    WithinClock(b.log, b.clock);
    LiveCallersBounded(b.log, b.clock);
  }

  /** One more admission makes at most its own caller newly live. */
  lemma LiveCallersGrow(front: seq<Admission>, last: Admission, now: int)
    requires Admits(front, last.caller, last.at) && last.at <= now
    ensures |LiveCallers(front, last.at - WINDOW)| <= CAPACITY ==>
      |LiveCallers(front + [last], now - WINDOW)| <= CAPACITY
  {
    var live, earlier := LiveCallers(front + [last], now - WINDOW), LiveCallers(front, last.at - WINDOW);
    forall c | c in live ensures c in earlier + {last.caller} {
      RecentAfterAppend(front, last, c, now - WINDOW);
      LaterTwice(Times(front, c), last.at - WINDOW, now - WINDOW);
      OnlyCallersHaveTimes(front, c);
    }
    LiveIffRecent(front, last.caller, last.at - WINDOW);
    SubsetSize(live, earlier + {last.caller});
  }
}
