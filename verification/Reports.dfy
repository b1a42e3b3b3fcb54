// The leased bug-report queue (src/infrastructure/reports.rs).
//
// Each of the two SQL statements is one atomic step on the table. Between a worker's claim and its
// completion anything may happen: other workers claim, complete, stall for ever, or crash.
module Reports {
  const LEASE: int := 60
  const BACKOFF: int := 300
  const MAX_ATTEMPTS: nat := 8

  type Id = nat
  datatype Status = Queued | Sending | Sent | Simulated | Failed
  datatype Report = Report(status: Status, attempts: nat, nextAttemptAt: int)
  datatype Response = Http(code: nat) | TransportError
  type Table = map<Id, Report>

  predicate Due(r: Report, now: int) {
    r.status in {Queued, Sending} && r.nextAttemptAt <= now
  }

  /** The row a claim leaves behind. */
  function Leased(r: Report, now: int): Report {
    Report(Sending, r.attempts + 1, now + LEASE)
  }

  /** How a response to attempt number `attempts` settles the report. */
  function Verdict(response: Response, attempts: nat): (status: Status)
    ensures status in {Sent, Failed, Queued}
    ensures status == Queued ==> attempts < MAX_ATTEMPTS
  {
    if response.Http? && 200 <= response.code < 300 then Sent
    else if response.Http? && 400 <= response.code < 500 && response.code != 429 then Failed
    else if attempts >= MAX_ATTEMPTS then Failed
    else Queued
  }

  /** Whether a completion for attempt `attempt` still finds its own lease on the row. */
  predicate HoldsLease(table: Table, id: Id, attempt: nat) {
    id in table && table[id].status == Sending && table[id].attempts == attempt
  }

  function Completed(table: Table, id: Id, attempt: nat, response: Response, now: int): Table {
    if HoldsLease(table, id, attempt)
    then table[id := Report(Verdict(response, attempt), attempt, now + BACKOFF)]
    else table
  }

  datatype Claim = Claim(id: Id, attempt: nat, at: int)

  /** The table, updated in place by claims and completions. */
  class ReportQueue {
    var rows: Table

    constructor (initial: Table)
      ensures rows == initial
    {
      rows := initial;
    }

    /** Stores a new report under a fresh id; a simulated one is never sent. */
    method Enqueue(id: Id, simulated: bool, now: int)
      requires id !in rows
      modifies this
      ensures rows == old(rows)[id := Report(if simulated then Simulated else Queued, 0, now)]
    {
      rows := rows[id := Report(if simulated then Simulated else Queued, 0, now)];
    }

    /** Claims some due report, or says there is none. Locked rows may be skipped, so any due one may be taken. */
    method ClaimOne(now: int) returns (claim: seq<Claim>)
      modifies this
      ensures claim == [] ==> rows == old(rows) && (forall id | id in rows :: !Due(rows[id], now))
      ensures claim != [] ==>
        |claim| == 1 && claim[0].at == now && claim[0].id in old(rows) && Due(old(rows)[claim[0].id], now)
        && claim[0].attempt == old(rows)[claim[0].id].attempts + 1
        && rows == old(rows)[claim[0].id := Leased(old(rows)[claim[0].id], now)]
    {
      var due := set id | id in rows && Due(rows[id], now);
      if due == {} {
        assert forall id | id in rows :: Due(rows[id], now) ==> id in due;
        return [];
      }
      var id :| id in due;
      rows := rows[id := Leased(rows[id], now)];
      return [Claim(id, rows[id].attempts, now)];
    }

    method Complete(claim: Claim, response: Response, now: int)
      modifies this
      ensures rows == Completed(old(rows), claim.id, claim.attempt, response, now)
    {
      var status := Failed;
      match response {
        case Http(code) =>
          if 200 <= code < 300 {
            status := Sent;
          } else if !(400 <= code < 500 && code != 429) {
            status := if claim.attempt >= MAX_ATTEMPTS then Failed else Queued;
          }
        case TransportError =>
          status := if claim.attempt >= MAX_ATTEMPTS then Failed else Queued;
      }
      if claim.id in rows && rows[claim.id].status == Sending && rows[claim.id].attempts == claim.attempt {
        rows := rows[claim.id := Report(status, claim.attempt, now + BACKOFF)];
      }
    }
  }

  // ---- runs: any number of workers, each step at a nondecreasing instant ----

  datatype Step =
    | Enqueue(id: Id, simulated: bool, at: int)           // a new report
    | TakeClaim(id: Id, at: int)
    | Finish(claim: Claim, response: Response, at: int)   // any claim ever taken, however late, even twice

  /** A completion that was issued, and whether it changed the row. */
  datatype Done = Done(claim: Claim, response: Response, at: int, effective: bool)

  datatype World = World(table: Table, clock: int, claims: set<Claim>, done: set<Done>)

  predicate Enabled(w: World, s: Step) {
    s.at >= w.clock &&
    match s
    case Enqueue(id, _, _) => id !in w.table
    case TakeClaim(id, at) => id in w.table && Due(w.table[id], at)
    case Finish(claim, _, _) => claim in w.claims
  }

  function Next(w: World, s: Step): World
    requires Enabled(w, s)
  {
    match s
    case Enqueue(id, simulated, at) =>
      World(w.table[id := Report(if simulated then Simulated else Queued, 0, at)], at, w.claims, w.done)
    case TakeClaim(id, at) =>
      World(w.table[id := Leased(w.table[id], at)], at, w.claims + {Claim(id, w.table[id].attempts + 1, at)}, w.done)
    case Finish(claim, response, at) =>
      World(Completed(w.table, claim.id, claim.attempt, response, at), at, w.claims,
            w.done + {Done(claim, response, at, HoldsLease(w.table, claim.id, claim.attempt))})
  }

  ghost predicate IsRun(w: World, steps: seq<Step>)
    decreases |steps|
  {
    steps == [] || (Enabled(w, steps[0]) && IsRun(Next(w, steps[0]), steps[1..]))
  }

  function Run(w: World, steps: seq<Step>): World
    requires IsRun(w, steps)
    decreases |steps|
  {
    if steps == [] then w else Run(Next(w, steps[0]), steps[1..])
  }

  /** A queue no worker has touched yet. */
  ghost predicate Initial(w: World) {
    && w.claims == {} && w.done == {}
    && forall id | id in w.table :: w.table[id].attempts == 0 && w.table[id].status in {Queued, Simulated}
  }

  // ---- what every run keeps ----

  /** The row's counter is the number of its latest claim, and its lease started no earlier than that claim. */
  ghost predicate RowFollowsClaims(w: World, id: Id)
    requires id in w.table
  {
    var r := w.table[id];
    && (forall c | c in w.claims && c.id == id :: 1 <= c.attempt <= r.attempts && c.at + LEASE <= r.nextAttemptAt)
    && (r.status == Queued ==> r.attempts < MAX_ATTEMPTS)
  }

  /** The verdict of a completion that took effect: final ones still stand on the row, retries delay the next claim. */
  ghost predicate VerdictStands(w: World, d: Done)
    requires d.claim.id in w.table
  {
    var r := w.table[d.claim.id];
    var verdict := Verdict(d.response, d.claim.attempt);
    && d.claim.attempt <= r.attempts
    && d.at + BACKOFF <= r.nextAttemptAt
    && (verdict != Queued ==> r.attempts == d.claim.attempt && r.status == verdict)
    && (d.claim.attempt == r.attempts ==> r.status == verdict)
  }

  ghost predicate Fenced(w: World) {
    && (forall c | c in w.claims :: c.id in w.table && c.at <= w.clock)
    && (forall d | d in w.done :: d.claim in w.claims && d.at <= w.clock)
    && (forall id | id in w.table :: RowFollowsClaims(w, id))
    && (forall d | d in w.done && d.effective :: VerdictStands(w, d))
    && (forall c, d | c in w.claims && d in w.claims && c.id == d.id && c != d ::
          c.attempt != d.attempt && (c.attempt < d.attempt ==> c.at + LEASE <= d.at))
    && (forall c, d | c in w.claims && d in w.done && d.effective && d.claim.id == c.id ::
          c.attempt > d.claim.attempt ==> c.at >= d.at + BACKOFF)
  }

  lemma EnqueueKeepsFence(w: World, id: Id, simulated: bool, at: int)
    requires Fenced(w) && Enabled(w, Enqueue(id, simulated, at))
    ensures Fenced(Next(w, Enqueue(id, simulated, at)))
  {
    var n := Next(w, Enqueue(id, simulated, at));
    forall other | other in n.table ensures RowFollowsClaims(n, other) {
      assert other in w.table ==> RowFollowsClaims(w, other);
    }
    forall d | d in n.done && d.effective ensures VerdictStands(n, d) {
      assert VerdictStands(w, d);
    }
  }

  lemma {:induction false} ClaimKeepsFence(w: World, id: Id, at: int)
    requires Fenced(w) && Enabled(w, TakeClaim(id, at))
    ensures Fenced(Next(w, TakeClaim(id, at)))
  {
    var n := Next(w, TakeClaim(id, at));
    assert RowFollowsClaims(w, id);
    forall other | other in n.table ensures RowFollowsClaims(n, other) {
      assert RowFollowsClaims(w, other);
    }
    forall d | d in n.done && d.effective ensures VerdictStands(n, d) {
      assert VerdictStands(w, d);
    }
  }

  lemma {:induction false} FinishKeepsFence(w: World, claim: Claim, response: Response, at: int)
    requires Fenced(w) && Enabled(w, Finish(claim, response, at))
    ensures Fenced(Next(w, Finish(claim, response, at)))
  {
    var n := Next(w, Finish(claim, response, at));
    assert RowFollowsClaims(w, claim.id);
    forall other | other in n.table ensures RowFollowsClaims(n, other) {
      assert RowFollowsClaims(w, other);
    }
    forall d | d in n.done && d.effective ensures VerdictStands(n, d) {
      assert d in w.done ==> VerdictStands(w, d);
    }
  }

  lemma StepKeepsFence(w: World, s: Step)
    requires Fenced(w) && Enabled(w, s)
    ensures Fenced(Next(w, s))
  {
    match s
    case Enqueue(id, simulated, at) => EnqueueKeepsFence(w, id, simulated, at);
    case TakeClaim(id, at) => ClaimKeepsFence(w, id, at);
    case Finish(claim, response, at) => FinishKeepsFence(w, claim, response, at);
  }

  lemma {:induction false} RunIsFenced(w: World, steps: seq<Step>)
    requires Fenced(w) && IsRun(w, steps)
    ensures Fenced(Run(w, steps))
    decreases |steps|
  {
    if steps != [] {
      StepKeepsFence(w, steps[0]);
      RunIsFenced(Next(w, steps[0]), steps[1..]);
    }
  }

  // ---- the promises, over all runs of an untouched queue ----

  /**
   * Claims of one report are numbered upwards and start at least a lease apart, and at least the back-off after a
   * completion that asked for a retry.
   */
  lemma ClaimsAreSpaced(w: World, steps: seq<Step>, first: Claim, second: Claim)
    requires Initial(w) && IsRun(w, steps)
    requires first in Run(w, steps).claims && second in Run(w, steps).claims
    requires first.id == second.id && first != second
    ensures first.attempt != second.attempt
    ensures first.attempt < second.attempt ==>
      && first.at + LEASE <= second.at
      && forall d | d in Run(w, steps).done && d.effective && d.claim == first :: d.at + BACKOFF <= second.at
  {
    RunIsFenced(w, steps);
  }

  /** A completion changes the row only while its claim is the report's latest, and at most once per claim. */
  lemma OnlyLatestClaimCompletes(w: World, steps: seq<Step>, claim: Claim, response: Response, at: int)
    requires Initial(w) && IsRun(w, steps)
    requires Enabled(Run(w, steps), Finish(claim, response, at))
    ensures var now := Run(w, steps);
            Next(now, Finish(claim, response, at)).table != now.table ==>
              && (forall c | c in now.claims && c.id == claim.id :: c.attempt <= claim.attempt)
              && (forall d | d in now.done && d.effective :: d.claim != claim)
  {
    RunIsFenced(w, steps);
    var now := Run(w, steps);
    assert RowFollowsClaims(now, claim.id);
    if HoldsLease(now.table, claim.id, claim.attempt) {
      forall d | d in now.done && d.effective && d.claim.id == claim.id ensures d.claim != claim {
        assert VerdictStands(now, d);
      }
    }
  }

  /** Sent, failed and simulated reports never change again, whatever the workers do. */
  lemma {:induction false} SettledForEver(w: World, steps: seq<Step>, id: Id)
    requires IsRun(w, steps) && id in w.table && w.table[id].status in {Sent, Failed, Simulated}
    ensures id in Run(w, steps).table && Run(w, steps).table[id] == w.table[id]
    decreases |steps|
  {
    if steps != [] {
      SettledForEver(Next(w, steps[0]), steps[1..], id);
    }
  }

  predicate Accepted(response: Response) { response.Http? && 200 <= response.code < 300 }

  /** Refused for good, or unanswered too often. */
  predicate GivenUp(response: Response, attempt: nat) {
    !Accepted(response) &&
    ((response.Http? && 400 <= response.code < 500 && response.code != 429) || attempt >= MAX_ATTEMPTS)
  }

  ghost predicate WasAccepted(w: World, id: Id) {
    exists d | d in w.done :: d.effective && d.claim.id == id && Accepted(d.response)
  }

  ghost predicate WasGivenUp(w: World, id: Id) {
    exists d | d in w.done :: d.effective && d.claim.id == id && GivenUp(d.response, d.claim.attempt)
  }

  ghost predicate Caused(w: World) {
    forall id | id in w.table ::
      (w.table[id].status == Sent ==> WasAccepted(w, id)) && (w.table[id].status == Failed ==> WasGivenUp(w, id))
  }

  lemma {:induction false} StepKeepsCaused(w: World, s: Step)
    requires Fenced(w) && Caused(w) && Enabled(w, s)
    ensures Caused(Next(w, s))
  {
    var n := Next(w, s);
    assert forall d | d in w.done :: d in n.done;
    if s.Finish? { assert Done(s.claim, s.response, s.at, HoldsLease(w.table, s.claim.id, s.claim.attempt)) in n.done; }
    forall id | id in n.table
      ensures n.table[id].status == Sent ==> WasAccepted(n, id)
      ensures n.table[id].status == Failed ==> WasGivenUp(n, id)
    {
      assert id in w.table && w.table[id].status == n.table[id].status ==>
        (WasAccepted(w, id) ==> WasAccepted(n, id)) && (WasGivenUp(w, id) ==> WasGivenUp(n, id));
    }
  }

  lemma {:induction false} RunIsCaused(w: World, steps: seq<Step>)
    requires Fenced(w) && Caused(w) && IsRun(w, steps)
    ensures Caused(Run(w, steps))
    decreases |steps|
  {
    if steps != [] {
      StepKeepsCaused(w, steps[0]);
      StepKeepsFence(w, steps[0]);
      RunIsCaused(Next(w, steps[0]), steps[1..]);
    }
  }

  /**
   * Over every run: a report is sent exactly when a completion in time reported a 2xx, and failed exactly when one
   * reported a 4xx other than 429 or was the eighth or later without success. Whatever else such a completion reported
   * leaves it to be tried again, no sooner than the back-off.
   */
  lemma {:induction false} SettledAsReported(w: World, steps: seq<Step>, id: Id)
    requires Initial(w) && IsRun(w, steps) && id in Run(w, steps).table
    ensures var end := Run(w, steps);
      && (end.table[id].status == Sent <==> WasAccepted(end, id))
      && (end.table[id].status == Failed <==> WasGivenUp(end, id))
      && (forall d | d in end.done && d.effective && d.claim.id == id && d.claim.attempt == end.table[id].attempts
                     && !Accepted(d.response) && !GivenUp(d.response, d.claim.attempt) ::
            end.table[id].status == Queued && d.at + BACKOFF <= end.table[id].nextAttemptAt)
  {
    RunIsFenced(w, steps);
    RunIsCaused(w, steps);
    var end := Run(w, steps);
    forall d | d in end.done && d.effective && d.claim.id == id ensures VerdictStands(end, d) {}
  }

  /**
   * A claim numbered beyond the eighth proves that no attempt from the eighth on ever completed: those leases just ran
   * out.
   */
  lemma NinthClaimMeansEighthNeverCompleted(w: World, steps: seq<Step>, c: Claim, d: Done)
    requires Initial(w) && IsRun(w, steps)
    requires c in Run(w, steps).claims && d in Run(w, steps).done
    requires d.claim.id == c.id && MAX_ATTEMPTS <= d.claim.attempt < c.attempt
    ensures !d.effective
  {
    RunIsFenced(w, steps);
    var end := Run(w, steps);
    assert RowFollowsClaims(end, c.id);
    assert d.effective ==> VerdictStands(end, d);
  }

  /** Nothing bounds the number of claims: a report whose workers keep crashing is claimed again after every lease. */
  lemma {:induction false} CrashesReclaimForEver(table: Table, id: Id, start: int, n: nat) returns (steps: seq<Step>)
    requires id in table && Due(table[id], start)
    ensures var w := World(table, start, {}, {});
            |steps| == n && IsRun(w, steps) && id in Run(w, steps).table
            && Run(w, steps).table[id].attempts == table[id].attempts + n
  {
    steps := Reclaims(id, start, n);
    ReclaimsRun(World(table, start, {}, {}), id, start, n);
  }

  function Reclaims(id: Id, start: int, n: nat): (steps: seq<Step>)
    ensures |steps| == n
    decreases n
  {
    if n == 0 then [] else [TakeClaim(id, start)] + Reclaims(id, start + LEASE, n - 1)
  }

  lemma {:induction false} ReclaimsRun(w: World, id: Id, start: int, n: nat)
    requires id in w.table && Due(w.table[id], start) && w.clock <= start
    ensures IsRun(w, Reclaims(id, start, n))
    ensures var end := Run(w, Reclaims(id, start, n)).table;
            id in end && end[id].attempts == w.table[id].attempts + n
    decreases n
  {
    if n > 0 {
      var steps := Reclaims(id, start, n);
      assert steps[1..] == Reclaims(id, start + LEASE, n - 1);
      ReclaimsRun(Next(w, steps[0]), id, start + LEASE, n - 1);
    }
  }
}
