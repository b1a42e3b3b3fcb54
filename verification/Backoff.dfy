// Retry delays and the attempts of one execution (src/worker/delivery.rs, src/domain/execution.rs).
//
// Durations are whole milliseconds. The jitter's hash is a parameter: any 64-bit number for each attempt.
module Backoff {
  import opened Wrappers

  const U64_MAX: nat := 0xffff_ffff_ffff_ffff
  const U128_MAX: nat := 0xffff_ffff_ffff_ffff_ffff_ffff_ffff_ffff

  newtype Word = x: int | 0 <= x < 0x1_0000_0000_0000_0000

  datatype Policy = Policy(maxAttempts: nat, base: nat, max: nat, jitterPercent: nat)

  /** What configuration accepts: positive second counts that fit 64 bits, and a jitter of at most 100 percent. */
  predicate Configured(p: Policy) {
    && 0 < p.maxAttempts < 0x1_0000 && p.jitterPercent <= 100
    && 1000 <= p.base <= p.max <= U64_MAX * 1000
  }

  function Min(a: nat, b: nat): nat { if a < b then a else b }
  function Saturating(n: nat): nat { Min(n, U128_MAX) }

  function Pow2(n: nat): (p: nat)
    ensures p > 0
  {
    if n == 0 then 1 else 2 * Pow2(n - 1)
  }

  function Exponent(attempt: nat): nat { if attempt == 0 then 0 else Min(attempt - 1, 31) }

  /** The capped exponential, before jitter. */
  function Capped(p: Policy, attempt: nat): nat { Min(Saturating(p.base * Pow2(Exponent(attempt))), p.max) }

  function Window(p: Policy, attempt: nat): nat { Saturating(Capped(p, attempt) * p.jitterPercent) / 100 }

  function Jitter(p: Policy, attempt: nat, entropy: Word): nat {
    var window := Window(p, attempt);
    if window == 0 then 0 else entropy as nat % Saturating(window + 1)
  }

  function RetryDelay(p: Policy, attempt: nat, entropy: Word): nat {
    Min(Min(Saturating(Capped(p, attempt) + Jitter(p, attempt, entropy)), p.max), U64_MAX)
  }

  // ---- arithmetic ----

  lemma {:induction false} Pow2Grows(m: nat, n: nat)
    requires m <= n
    ensures Pow2(m) <= Pow2(n) && (m < n ==> 2 * Pow2(m) <= Pow2(n))
  {
    if m < n { Pow2Grows(m, n - 1); }
  }

  lemma Pow2At31()
    ensures Pow2(31) == 0x8000_0000
  {
    assert Pow2(8) == 256;
    assert Pow2(16) == 0x1_0000;
    assert Pow2(24) == 0x100_0000;
  }

  lemma ProductAtMost(a: nat, b: nat, c: nat, d: nat)
    requires a <= c && b <= d
    ensures a * b <= c * d
  {}

  lemma CappedBelow(p: Policy, attempt: nat)
    requires Configured(p)
    ensures p.base * Pow2(Exponent(attempt)) <= U64_MAX * 1000 * 0x8000_0000
    ensures Capped(p, attempt) * p.jitterPercent <= U64_MAX * 1000 * 100
  {
    Pow2Grows(Exponent(attempt), 31);
    Pow2At31();
    ProductAtMost(p.base, Pow2(Exponent(attempt)), U64_MAX * 1000, 0x8000_0000);
    ProductAtMost(Capped(p, attempt), p.jitterPercent, U64_MAX * 1000, 100);
  }

  /** Nothing saturates: every product and sum stays far below 2^128. */
  lemma {:induction false} NeverSaturates(p: Policy, attempt: nat, entropy: Word)
    requires Configured(p)
    ensures p.base * Pow2(Exponent(attempt)) < U128_MAX
    ensures Capped(p, attempt) * p.jitterPercent < U128_MAX
    ensures Window(p, attempt) + 1 < U128_MAX
    ensures Capped(p, attempt) + Jitter(p, attempt, entropy) < U128_MAX
  {
    CappedBelow(p, attempt);
    assert Jitter(p, attempt, entropy) <= entropy as nat;
  }

  /** Jitter adds at most the configured share, which is at most the delay itself. */
  lemma JitterWithinWindow(p: Policy, attempt: nat, entropy: Word)
    requires Configured(p)
    ensures Jitter(p, attempt, entropy) <= Window(p, attempt) <= Capped(p, attempt)
  {
    NeverSaturates(p, attempt, entropy);
    ProductAtMost(Capped(p, attempt), p.jitterPercent, Capped(p, attempt), 100);
  }

  // ---- bounds ----

  /** The delay lies between the capped exponential and the maximum, both as far as 64 bits of milliseconds go. */
  lemma DelayBounds(p: Policy, attempt: nat, entropy: Word)
    requires Configured(p)
    ensures Min(Capped(p, attempt), U64_MAX) <= RetryDelay(p, attempt, entropy) <= Min(p.max, U64_MAX)
    ensures RetryDelay(p, attempt, entropy) <= 2 * Capped(p, attempt)
    ensures Capped(p, attempt) == Min(p.base * Pow2(Exponent(attempt)), p.max)
  {
    NeverSaturates(p, attempt, entropy);
    JitterWithinWindow(p, attempt, entropy);
  }

  /** The window is the configured share of the capped exponential. */
  lemma WindowIsShare(p: Policy, attempt: nat)
    requires Configured(p)
    ensures Window(p, attempt) == Capped(p, attempt) * p.jitterPercent / 100
  {
    NeverSaturates(p, attempt, 0);
  }

  lemma DelayInRange(p: Policy, attempt: nat, entropy: Word)
    requires Configured(p) && p.max <= U64_MAX
    ensures Capped(p, attempt) <= RetryDelay(p, attempt, entropy)
      <= Min(Capped(p, attempt) + Window(p, attempt), p.max)
  {
    NeverSaturates(p, attempt, entropy);
    JitterWithinWindow(p, attempt, entropy);
  }

  lemma DelayIsReached(p: Policy, attempt: nat, entropy: Word)
    requires Configured(p) && p.max <= U64_MAX && entropy as nat <= Window(p, attempt)
    ensures RetryDelay(p, attempt, entropy) == Min(Capped(p, attempt) + entropy as nat, p.max)
  {
    NeverSaturates(p, attempt, entropy);
    if Window(p, attempt) > 0 { SmallRemainder(entropy as nat, Window(p, attempt) + 1); }
  }

  /** Every delay from the capped exponential to the configured share above it occurs, and no other. */
  lemma DelaysAreTheRange(p: Policy, attempt: nat, delay: nat)
    requires Configured(p) && p.max <= U64_MAX
    ensures (exists entropy :: RetryDelay(p, attempt, entropy) == delay) <==>
      Capped(p, attempt) <= delay <= Min(Capped(p, attempt) + Window(p, attempt), p.max)
  {
    forall entropy { DelayInRange(p, attempt, entropy); }
    if Capped(p, attempt) <= delay <= Min(Capped(p, attempt) + Window(p, attempt), p.max) {
      var entropy := (delay - Capped(p, attempt)) as Word;
      DelayIsReached(p, attempt, entropy);
      assert RetryDelay(p, attempt, entropy) == delay;
    }
  }

  lemma CappedDoubles(p: Policy, a: nat, b: nat)
    requires Configured(p) && 1 <= a < b <= 32
    ensures Capped(p, b) >= Min(2 * Capped(p, a), p.max)
  {
    Pow2Grows(Exponent(a), Exponent(b));
    ProductAtMost(p.base, 2 * Pow2(Exponent(a)), p.base, Pow2(Exponent(b)));
    NeverSaturates(p, a, 0);
    NeverSaturates(p, b, 0);
    TwiceProduct(p.base, Pow2(Exponent(a)));
  }

  lemma TwiceProduct(a: nat, b: nat)
    ensures a * (2 * b) == 2 * (a * b)
  {}

  /** From the first attempt to the 32nd the delay never decreases, whatever the jitter. */
  lemma DelayGrowsTo32(p: Policy, a: nat, b: nat, first: Word, second: Word)
    requires Configured(p) && 1 <= a < b <= 32
    ensures RetryDelay(p, a, first) <= RetryDelay(p, b, second)
  {
    CappedDoubles(p, a, b);
    DelayBounds(p, a, first);
    DelayBounds(p, b, second);
  }

  // ---- beyond the 32nd attempt ----

  ghost predicate GrowsEverywhere(p: Policy) {
    forall a: nat, b: nat, first: Word, second: Word | 1 <= a < b :: RetryDelay(p, a, first) <= RetryDelay(p, b, second)
  }

  /** The exponential reaches the maximum by attempt 32, there is no jitter, or it reaches what 64 bits can hold. */
  predicate SettledBy32(p: Policy) {
    p.max <= 0x8000_0000 * p.base || p.jitterPercent == 0 || (U64_MAX <= 0x8000_0000 * p.base && U64_MAX <= p.max)
  }

  /** Without jitter the window is empty; with any, the second-long base delay leaves room for it. */
  lemma WindowAt32(p: Policy)
    requires Configured(p) && 0x8000_0000 * p.base < p.max
    ensures Capped(p, 32) == 0x8000_0000 * p.base
    ensures Window(p, 32) == 0 <==> p.jitterPercent == 0
  {
    CappedAt32(p);
    NeverSaturates(p, 32, 0);
    if p.jitterPercent > 0 { ProductAtMost(Capped(p, 32), 1, Capped(p, 32), p.jitterPercent); }
  }

  lemma SameFrom32(p: Policy, a: nat, entropy: Word)
    requires a >= 32
    ensures RetryDelay(p, a, entropy) == RetryDelay(p, 32, entropy)
  {}

  lemma SettledIsConstant(p: Policy, entropy: Word)
    requires Configured(p) && SettledBy32(p)
    ensures RetryDelay(p, 32, entropy) == Min(Capped(p, 32), U64_MAX)
  {
    CappedAt32(p);
    if 0x8000_0000 * p.base < p.max { WindowAt32(p); }
    DelayBounds(p, 32, entropy);
  }

  /** The delay never decreases at any attempt, for every jitter, exactly when it has settled by attempt 32. */
  lemma GrowsEverywhereIff(p: Policy)
    requires Configured(p)
    ensures GrowsEverywhere(p) <==> SettledBy32(p)
  {
    if SettledBy32(p) {
      forall a: nat, b: nat, first: Word, second: Word | 1 <= a < b
        ensures RetryDelay(p, a, first) <= RetryDelay(p, b, second)
      {
        SettledGrows(p, a, b, first, second);
      }
    } else {
      UnsettledDrops(p);
      assert !(RetryDelay(p, 32, 1) <= RetryDelay(p, 33, 0));
    }
  }

  lemma SettledGrows(p: Policy, a: nat, b: nat, first: Word, second: Word)
    requires Configured(p) && SettledBy32(p) && 1 <= a < b
    ensures RetryDelay(p, a, first) <= RetryDelay(p, b, second)
  {
    if b <= 32 {
      DelayGrowsTo32(p, a, b, first, second);
    } else {
      SameFrom32(p, b, second);
      SettledIsConstant(p, second);
      if a < 32 {
        DelayGrowsTo32(p, a, 32, first, second);
      } else {
        SameFrom32(p, a, first);
        SettledIsConstant(p, first);
      }
    }
  }

  lemma UnsettledDrops(p: Policy)
    requires Configured(p) && !SettledBy32(p)
    ensures RetryDelay(p, 32, 1) > RetryDelay(p, 33, 0)
  {
    WindowAt32(p);
    SmallEntropyIsJitter(p, 32, 0);
    SmallEntropyIsJitter(p, 32, 1);
    SameFrom32(p, 33, 0);
  }

  lemma CappedAt32(p: Policy)
    requires Configured(p)
    ensures Capped(p, 32) == Min(p.base * 0x8000_0000, p.max)
  {
    Pow2At31();
    NeverSaturates(p, 32, 0);
  }

  lemma SmallEntropyIsJitter(p: Policy, attempt: nat, entropy: Word)
    requires Configured(p) && Window(p, attempt) > 0 && entropy <= 1
    ensures Jitter(p, attempt, entropy) == entropy as nat
    ensures RetryDelay(p, attempt, entropy) == Min(Min(Capped(p, attempt) + entropy as nat, p.max), U64_MAX)
  {
    NeverSaturates(p, attempt, entropy);
    SmallRemainder(entropy as nat, Window(p, attempt) + 1);
  }

  lemma SmallRemainder(a: nat, b: nat)
    requires a < b
    ensures a % b == a
  {}

  // ---- one execution over its attempts ----

  datatype Status = Pending | Retrying | Delivered | Failed

  predicate Terminal(s: Status) { s.Delivered? || s.Failed? }

  predicate Allowed(from: Status, to: Status) { (from.Pending? || from.Retrying?) && !to.Pending? }

  class Execution {
    var status: Status
    var attemptedAt: Option<int>
    var deliveredAt: Option<int>
    var hookEventId: Option<nat>
    var failureReason: Option<string>

    constructor ()
      ensures status == Pending && attemptedAt == None && deliveredAt == None && hookEventId == None
        && failureReason == None
    {
      status, attemptedAt, deliveredAt, hookEventId, failureReason := Pending, None, None, None, None;
    }

    ghost predicate Unchanged(wasStatus: Status, wasAttempted: Option<int>, wasDelivered: Option<int>,
                              wasEvent: Option<nat>,
                              wasReason: Option<string>)
      reads this
    {
      status == wasStatus && attemptedAt == wasAttempted && deliveredAt == wasDelivered && hookEventId == wasEvent
      && failureReason == wasReason
    }

    method TransitionTo(target: Status) returns (ok: bool)
      modifies this`status
      ensures ok == Allowed(old(status), target) && status == if ok then target else old(status)
    {
      ok := match (status, target) {
        case (Pending, Delivered) => true
        case (Pending, Retrying) => true
        case (Pending, Failed) => true
        case (Retrying, Delivered) => true
        case (Retrying, Retrying) => true
        case (Retrying, Failed) => true
        case _ => false
      };
      if ok { status := target; }
    }

    method MarkRetrying(at: int, reason: string) returns (ok: bool)
      modifies this
      ensures ok == !Terminal(old(status))
      ensures if ok then Unchanged(Retrying, Some(at), old(deliveredAt), old(hookEventId), Some(reason))
              else Unchanged(old(status), old(attemptedAt), old(deliveredAt), old(hookEventId), old(failureReason))
    {
      ok := TransitionTo(Retrying);
      if ok { attemptedAt, failureReason := Some(at), Some(reason); }
    }

    method MarkDelivered(at: int, event: nat) returns (ok: bool)
      modifies this
      ensures ok == !Terminal(old(status))
      ensures if ok then Unchanged(Delivered, Some(at), Some(at), Some(event), None)
              else Unchanged(old(status), old(attemptedAt), old(deliveredAt), old(hookEventId), old(failureReason))
    {
      ok := TransitionTo(Delivered);
      if ok { attemptedAt, deliveredAt, hookEventId, failureReason := Some(at), Some(at), Some(event), None; }
    }

    method MarkFailed(at: int, reason: string) returns (ok: bool)
      modifies this
      ensures ok == !Terminal(old(status))
      ensures if ok then Unchanged(Failed, Some(at), old(deliveredAt), old(hookEventId), Some(reason))
              else Unchanged(old(status), old(attemptedAt), old(deliveredAt), old(hookEventId), old(failureReason))
    {
      ok := TransitionTo(Failed);
      if ok { attemptedAt, failureReason := Some(at), Some(reason); }
    }
  }

  /** How a claimed attempt ends; a lost one (a crash, a lost lease) records nothing. */
  datatype Ending = Accepted | Retryable(entropy: Word) | Fatal | Lost

  /** The stored row's progress: attempts claimed, retries scheduled and the delays they asked for. */
  datatype Progress = Progress(status: Status, attempts: nat, retries: nat, delayed: nat)

  const NEW := Progress(Pending, 0, 0, 0)

  /** The claim counts the attempt first; its ending is judged by that count. */
  function Attempt(p: Policy, x: Progress, ending: Ending): Progress {
    if Terminal(x.status) then x else
      var attempts := x.attempts + 1;
      var attempt := Min(attempts, 0xffff);
      var claimed := x.(attempts := attempts, status := if x.attempts == 0 then Pending else Retrying);
      match ending
      case Accepted => claimed.(status := Delivered)
      case Fatal => claimed.(status := Failed)
      case Lost => claimed
      case Retryable(entropy) =>
        if attempt < p.maxAttempts
        then claimed.(status := Retrying, retries := x.retries + 1,
                      delayed := x.delayed + RetryDelay(p, attempt, entropy))
        else claimed.(status := Failed)
  }

  /** A status only moves along allowed transitions. */
  lemma AttemptIsAllowed(p: Policy, x: Progress, ending: Ending)
    requires x.attempts == 0 ==> x.status.Pending?
    ensures var n := Attempt(p, x, ending);
      (n.status == x.status || Allowed(x.status, n.status)) && (n.attempts == 0 ==> n.status.Pending?)
  {}

  /** Over a run too: each status follows from the one before by an allowed transition, from a pending start. */
  lemma {:induction false} StatusMovesAlong(p: Policy, endings: seq<Ending>)
    ensures Attempts(p, endings).attempts == 0 ==> Attempts(p, endings).status.Pending?
    ensures endings != [] ==>
      var (before, after) := (Attempts(p, endings[..|endings| - 1]).status, Attempts(p, endings).status);
      before == after || Allowed(before, after)
  {
    if endings != [] {
      StatusMovesAlong(p, endings[..|endings| - 1]);
      AttemptIsAllowed(p, Attempts(p, endings[..|endings| - 1]), endings[|endings| - 1]);
    }
  }

  /** One claimed attempt on the aggregate: its status ends as the stored row's. */
  method RunAttempt(p: Policy, x: Progress, e: Execution, ending: Ending, at: int, event: nat, reason: string)
    returns (n: Progress)
    requires e.status == x.status && (x.attempts == 0 ==> x.status.Pending?)
    modifies e
    ensures n == Attempt(p, x, ending) && e.status == n.status
    ensures Terminal(x.status) ==>
      e.Unchanged(old(e.status), old(e.attemptedAt), old(e.deliveredAt), old(e.hookEventId), old(e.failureReason))
    ensures n.status.Delivered? && !Terminal(x.status) ==> e.deliveredAt == Some(at) && e.hookEventId == Some(event)
  {
    n := Attempt(p, x, ending);
    if Terminal(e.status) {
      return;
    }
    if x.attempts > 0 {
      var claimed := e.TransitionTo(Retrying);
    }
    var marked := true;
    match ending {
      case Accepted => marked := e.MarkDelivered(at, event);
      case Fatal => marked := e.MarkFailed(at, reason);
      case Lost =>
      case Retryable(_) =>
        if Min(x.attempts + 1, 0xffff) < p.maxAttempts {
          marked := e.MarkRetrying(at, reason);
        } else {
          marked := e.MarkFailed(at, reason);
        }
    }
  }

  function Attempts(p: Policy, endings: seq<Ending>): Progress {
    if endings == [] then NEW else Attempt(p, Attempts(p, endings[..|endings| - 1]), endings[|endings| - 1])
  }

  /** The attempt takes place, and its ending settles the execution. */
  predicate Delivers(p: Policy, endings: seq<Ending>, k: nat)
    requires k < |endings|
  {
    !Terminal(Attempts(p, endings[..k]).status) && endings[k].Accepted?
  }

  /** Attempt number `k + 1` is refused for good, or fails once too often; the count stops at 16 bits. */
  predicate GivesUp(p: Policy, endings: seq<Ending>, k: nat)
    requires k < |endings|
  {
    !Terminal(Attempts(p, endings[..k]).status) &&
    (endings[k].Fatal? || (endings[k].Retryable? && p.maxAttempts <= Min(k + 1, 0xffff)))
  }

  /** Attempts are counted until one settles the execution. */
  lemma {:induction false} AttemptsAreCounted(p: Policy, endings: seq<Ending>)
    requires !Terminal(Attempts(p, endings).status)
    ensures Attempts(p, endings).attempts == |endings|
  {
    if endings != [] { AttemptsAreCounted(p, endings[..|endings| - 1]); }
  }

  /**
   * Delivered exactly when an attempt is accepted before anything settled it; failed exactly when one gives up before.
   */
  lemma {:induction false} SettledAsEnded(p: Policy, endings: seq<Ending>)
    ensures Attempts(p, endings).status.Delivered? <==> exists k | 0 <= k < |endings| :: Delivers(p, endings, k)
    ensures Attempts(p, endings).status.Failed? <==> exists k | 0 <= k < |endings| :: GivesUp(p, endings, k)
  {
    if endings != [] {
      var n := |endings| - 1;
      var before := endings[..n];
      SettledAsEnded(p, before);
      assert forall k | 0 <= k <= n :: endings[..k] == before[..k];
      assert forall k | 0 <= k < n :: Delivers(p, before, k) <==> Delivers(p, endings, k);
      assert forall k | 0 <= k < n :: GivesUp(p, before, k) <==> GivesUp(p, endings, k);
      if !Terminal(Attempts(p, before).status) {
        AttemptsAreCounted(p, before);
        assert Delivers(p, endings, n) <==> endings[n].Accepted?;
        assert GivesUp(p, endings, n) <==> Attempts(p, endings).status.Failed?;
      } else {
        assert !Delivers(p, endings, n) && !GivesUp(p, endings, n);
      }
    }
  }

  /** However attempts end, at most `maxAttempts - 1` retries are scheduled, each for at most the maximum delay. */
  lemma {:induction false} RetriesAreBounded(p: Policy, endings: seq<Ending>)
    requires Configured(p)
    ensures var x := Attempts(p, endings);
      && x.retries <= x.attempts <= |endings| && x.retries <= p.maxAttempts - 1
      && x.delayed <= x.retries * Min(p.max, U64_MAX) <= (p.maxAttempts - 1) * Min(p.max, U64_MAX)
  {
    if endings != [] {
      var before, ending := Attempts(p, endings[..|endings| - 1]), endings[|endings| - 1];
      RetriesAreBounded(p, endings[..|endings| - 1]);
      if !Terminal(before.status) && ending.Retryable? {
        DelayBounds(p, Min(before.attempts + 1, 0xffff), ending.entropy);
        OneMoreDelay(before.retries, Min(p.max, U64_MAX));
      }
    }
    ProductAtMost(Attempts(p, endings).retries, Min(p.max, U64_MAX), p.maxAttempts - 1, Min(p.max, U64_MAX));
  }

  lemma OneMoreDelay(n: nat, d: nat)
    ensures (n + 1) * d == n * d + d
  {}

  /** An execution that always fails retryably has failed for good after exactly `maxAttempts` attempts. */
  lemma {:induction false} RetryableFailsAfterMaxAttempts(p: Policy, endings: seq<Ending>)
    requires Configured(p) && forall e | e in endings :: e.Retryable?
    ensures var x := Attempts(p, endings);
      if |endings| < p.maxAttempts then x.attempts == |endings| && !Terminal(x.status)
      else x.attempts == p.maxAttempts && x.status == Failed
  {
    if endings != [] {
      var before := endings[..|endings| - 1];
      assert endings[|endings| - 1] in endings && forall e | e in before :: e in endings;
      RetryableFailsAfterMaxAttempts(p, before);
    }
  }

  /** Delivered and failed executions take no further attempt. */
  lemma {:induction false} TerminalIsFinal(p: Policy, endings: seq<Ending>, more: seq<Ending>)
    requires Terminal(Attempts(p, endings).status)
    ensures Attempts(p, endings + more) == Attempts(p, endings)
  {
    if more == [] {
      assert endings + more == endings;
    } else {
      assert (endings + more)[..|endings + more| - 1] == endings + more[..|more| - 1];
      TerminalIsFinal(p, endings, more[..|more| - 1]);
    }
  }

  /** The delays an execution has been told to wait for: one for each retryable attempt but the last allowed. */
  function Waits(p: Policy, endings: seq<Ending>): nat {
    if endings == [] then 0 else
      var (before, last) := (endings[..|endings| - 1], endings[|endings| - 1]);
      Waits(p, before) +
        if last.Retryable? && !Terminal(Attempts(p, before).status) && |endings| < p.maxAttempts
        then RetryDelay(p, |endings|, last.entropy) else 0
  }

  /** What the row has been put off by, attempt for attempt. */
  lemma {:induction false} DelaysAddUp(p: Policy, endings: seq<Ending>)
    requires Configured(p)
    ensures Attempts(p, endings).delayed == Waits(p, endings)
  {
    if endings != [] {
      var before := endings[..|endings| - 1];
      DelaysAddUp(p, before);
      if !Terminal(Attempts(p, before).status) { AttemptsAreCounted(p, before); }
    }
  }
}
