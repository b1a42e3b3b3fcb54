// What every run of patches, status changes, archival and materialization keeps.
module ScheduleRuns {
  import opened Wrappers
  import opened Schedules

  // ---- the invariant ----

  ghost predicate RowConsistent(cal: Calendar, r: Row) {
    && (r.next.Some? <==> r.status.Active? && r.deletedAt.None?)
    && (r.next.Some? ==> cal.matches(r.timing.cron, r.zone, r.next.value))
    && (r.completedAt.Some? <==> r.status.Completed?)
    && (r.status.Completed? ==> r.timing.kind.OneTime?)
  }

  ghost predicate ExecutionsConsistent(s: State) {
    var es := s.executions;
    && (forall i, j | 0 <= i < j < |es| :: es[i].version < es[j].version && es[i].scheduledFor != es[j].scheduledFor)
    && (forall i | 0 <= i < |es| :: es[i].version <= s.row.version)
    && (forall i | 0 <= i < |es| && es[i].kind.OneTime? :: i == |es| - 1 && s.row.status.Completed?)
    && (s.row.status.Completed? ==> es != [] && es[|es| - 1].kind.OneTime?)
  }

  ghost predicate Consistent(cal: Calendar, s: State) { RowConsistent(cal, s.row) && ExecutionsConsistent(s) }

  lemma CreatedIsConsistent(cal: Calendar, text: string, zone: string, kind: Kind, cron: string, now: int)
    requires LeastAfter(cal) && Create(cal, text, zone, kind, cron, now).Ok?
    ensures Consistent(cal, State(Create(cal, text, zone, kind, cron, now).value, []))
  {}

  lemma PatchKeepsConsistent(cal: Calendar, s: State, p: Patch, at: int)
    requires LeastAfter(cal) && Consistent(cal, s)
    ensures Validate(cal, p, s.row, at).Ok? ==>
      var n := WritePatch(s, Validate(cal, p, s.row, at).value);
      n.Ok? ==> Consistent(cal, n.value)
  {}

  lemma {:induction false} MaterializeKeepsConsistent(cal: Calendar, s: State, now: int)
    requires LeastAfter(cal) && Consistent(cal, s)
    ensures MaterializeStored(cal, s, now).Ok? ==> Consistent(cal, MaterializeStored(cal, s, now).value)
  {}

  /**
   * Kept by every step: the next instant is set exactly while the schedule is active and unarchived, and is an instant
   * its cron matches; no instant is materialized twice; a one-time execution is the last and completes the schedule.
   */
  lemma StepKeepsConsistent(cal: Calendar, s: State, step: Step)
    requires LeastAfter(cal) && Consistent(cal, s)
    ensures Consistent(cal, Next(cal, s, step))
  {
    match step
    case PatchRow(p, at) => PatchKeepsConsistent(cal, s, p, at);
    case SetStatus(status, at) => PatchKeepsConsistent(cal, s, NO_PATCH.(status := Some(status)), at);
    case ArchiveRow(at) =>
    case Materialize(now) => MaterializeKeepsConsistent(cal, s, now);
  }

  lemma {:induction false} RunKeepsConsistent(cal: Calendar, s: State, steps: seq<Step>)
    requires LeastAfter(cal) && Consistent(cal, s)
    ensures Consistent(cal, Run(cal, s, steps))
  {
    if steps != [] {
      RunKeepsConsistent(cal, s, steps[..|steps| - 1]);
      StepKeepsConsistent(cal, Run(cal, s, steps[..|steps| - 1]), steps[|steps| - 1]);
    }
  }

  // ---- what a step may change ----

  /** A step leaves the row alone or moves it to the next version; executions are only ever appended. */
  lemma StepMovesForward(cal: Calendar, s: State, step: Step)
    ensures var n := Next(cal, s, step);
      && (n.row == s.row || n.row.version == s.row.version + 1)
      && s.executions <= n.executions && |n.executions| <= |s.executions| + 1
      && (n.executions != s.executions ==> step.Materialize? && n.row.version == s.row.version + 1)
  {}

  lemma {:induction false} RunMovesForward(cal: Calendar, s: State, steps: seq<Step>)
    ensures var n := Run(cal, s, steps);
      && n.row.version >= s.row.version && (n.row.version == s.row.version ==> n == s)
      && s.executions <= n.executions
  {
    if steps != [] {
      RunMovesForward(cal, s, steps[..|steps| - 1]);
      StepMovesForward(cal, Run(cal, s, steps[..|steps| - 1]), steps[|steps| - 1]);
    }
  }

  /** An archived or completed schedule never changes again. */
  lemma {:induction false} EndedIsFinal(cal: Calendar, s: State, steps: seq<Step>)
    requires Ended(s.row)
    ensures Run(cal, s, steps) == s
  {
    if steps != [] { EndedIsFinal(cal, s, steps[..|steps| - 1]); }
  }

  /** Exactly the archived and completed schedules have a purge deadline, and it never moves. */
  lemma DeadlineIsFixed(cal: Calendar, s: State, steps: seq<Step>)
    requires RowConsistent(cal, s.row)
    ensures RetentionDeadline(s.row).Some? <==> Ended(s.row)
    ensures Ended(s.row) ==> RetentionDeadline(Run(cal, s, steps).row) == RetentionDeadline(s.row)
  {
    if Ended(s.row) { EndedIsFinal(cal, s, steps); }
  }

  /** A materialization turns the stored instant, a match of the cron in force, into one execution with its snapshot. */
  lemma MaterializationPinsSnapshot(cal: Calendar, s: State, now: int)
    requires LeastAfter(cal) && Consistent(cal, s) && MaterializeStored(cal, s, now).Ok?
    ensures var (r, n) := (s.row, MaterializeStored(cal, s, now).value);
      && r.next.Some? && r.next.value <= now && cal.matches(r.timing.cron, r.zone, r.next.value)
      && n.executions == s.executions + [Execution(r.next.value, n.row.version, r.timing.kind, r.text, r.zone)]
      && (n.row.next.Some? ==> now < n.row.next.value)
  {}

  // ---- strictly increasing instants, exactly when no stale clock reading reaches back ----

  ghost predicate Ascending(es: seq<Execution>) {
    forall i, j | 0 <= i < j < |es| :: es[i].scheduledFor < es[j].scheduledFor
  }

  /** Everything materialized so far lies, in order, before what comes next. */
  ghost predicate Ahead(s: State) {
    Ascending(s.executions) &&
    (s.row.next.Some? ==> forall e | e in s.executions :: e.scheduledFor < s.row.next.value)
  }

  /** The step is a request that computes the next instant anew, from a clock read at `CapturedAt(step)`. */
  predicate Recomputes(cal: Calendar, s: State, step: Step) {
    (step.PatchRow? || step.SetStatus?) && Apply(cal, s, step).Ok? &&
    var n := Apply(cal, s, step).value.row;
    n != s.row && Recomputed(s.row, n.timing, n.zone, n.status)
  }

  function CapturedAt(step: Step): int {
    match step
    case PatchRow(_, at) => at
    case SetStatus(_, at) => at
    case ArchiveRow(at) => at
    case Materialize(now) => now
  }

  /** The new cron has no match between the clock reading and the last materialized instant. */
  ghost predicate ReachesNoPastMatch(cal: Calendar, s: State, step: Step) {
    Recomputes(cal, s, step) && s.executions != [] ==>
      var n := Apply(cal, s, step).value.row;
      forall t | CapturedAt(step) < t <= s.executions[|s.executions| - 1].scheduledFor ::
        !cal.matches(n.timing.cron, n.zone, t)
  }

  lemma RecomputedNext(cal: Calendar, s: State, step: Step)
    requires Recomputes(cal, s, step)
    ensures var n := Apply(cal, s, step).value.row;
      n.next.Some? && n.next == cal.next(n.timing.cron, n.zone, CapturedAt(step))
      && Apply(cal, s, step).value.executions == s.executions
  {}

  /** A step keeps the instants in order if and only if its recomputed instant cannot fall on the past. */
  lemma {:induction false} StepKeepsAheadIff(cal: Calendar, s: State, step: Step)
    requires LeastAfter(cal) && Consistent(cal, s) && Ahead(s)
    ensures Ahead(Next(cal, s, step)) <==> ReachesNoPastMatch(cal, s, step)
  {
    if Recomputes(cal, s, step) {
      RecomputedNext(cal, s, step);
      if s.executions != [] {
        var last := s.executions[|s.executions| - 1];
        assert last in s.executions;
        assert forall e | e in s.executions :: e.scheduledFor <= last.scheduledFor;
      }
    } else {
      OtherStepsKeepAhead(cal, s, step);
    }
  }

  lemma {:induction false} OtherStepsKeepAhead(cal: Calendar, s: State, step: Step)
    requires LeastAfter(cal) && Consistent(cal, s) && Ahead(s) && !Recomputes(cal, s, step)
    ensures Ahead(Next(cal, s, step))
  {
    match step
    case PatchRow(p, at) =>
    case SetStatus(status, at) =>
    case ArchiveRow(at) =>
    case Materialize(now) =>
      if Apply(cal, s, step).Ok? { MaterializationPinsSnapshot(cal, s, now); }
  }

  ghost predicate AheadThroughout(cal: Calendar, s: State, steps: seq<Step>) {
    forall k | 0 <= k <= |steps| :: Ahead(Run(cal, s, steps[..k]))
  }

  ghost predicate NeverReachesPast(cal: Calendar, s: State, steps: seq<Step>) {
    forall k | 0 <= k < |steps| :: ReachesNoPastMatch(cal, Run(cal, s, steps[..k]), steps[k])
  }

  /**
   * Over a whole run: instants strictly increase and stay behind the next one exactly when no step reaches the past.
   */
  lemma {:induction false} RunAheadIff(cal: Calendar, s: State, steps: seq<Step>)
    requires LeastAfter(cal) && Consistent(cal, s) && Ahead(s)
    ensures AheadThroughout(cal, s, steps) <==> NeverReachesPast(cal, s, steps)
  {
    if steps == [] {
      assert steps[..0] == [];
    } else {
      var before, last := steps[..|steps| - 1], steps[|steps| - 1];
      RunAheadIff(cal, s, before);
      RunKeepsConsistent(cal, s, before);
      LastAhead(cal, s, steps);
      LastReach(cal, s, steps);
      if Ahead(Run(cal, s, before)) { StepKeepsAheadIff(cal, Run(cal, s, before), last); }
    }
  }

  lemma LastAhead(cal: Calendar, s: State, steps: seq<Step>)
    requires steps != []
    ensures var before := steps[..|steps| - 1];
      && (AheadThroughout(cal, s, steps) <==> AheadThroughout(cal, s, before) && Ahead(Run(cal, s, steps)))
      && (AheadThroughout(cal, s, before) ==> Ahead(Run(cal, s, before)))
  {
    var n := |steps| - 1;
    var before := steps[..n];
    assert forall k | 0 <= k <= n :: steps[..k] == before[..k];
    assert steps[..n + 1] == steps && before[..n] == before;
  }

  lemma LastReach(cal: Calendar, s: State, steps: seq<Step>)
    requires steps != []
    ensures var before := steps[..|steps| - 1];
      NeverReachesPast(cal, s, steps) <==>
        NeverReachesPast(cal, s, before) && ReachesNoPastMatch(cal, Run(cal, s, before), steps[|steps| - 1])
  {
    var n := |steps| - 1;
    var before := steps[..n];
    assert forall k | 0 <= k <= n :: steps[..k] == before[..k];
    assert before[..n] == before;
  }

  /** A clock read no earlier than the last materialized instant is current enough. */
  lemma CurrentClockSuffices(cal: Calendar, s: State, step: Step)
    requires s.executions != [] ==> s.executions[|s.executions| - 1].scheduledFor <= CapturedAt(step)
    ensures ReachesNoPastMatch(cal, s, step)
  {}

  /** A schedule whose next instant was already materialized can never be materialized again as it stands. */
  lemma RepeatedInstantIsStuck(cal: Calendar, s: State, now: int)
    requires Consistent(cal, s) && s.row.next.Some?
      && exists e :: e in s.executions && e.scheduledFor == s.row.next.value
    ensures MaterializeStored(cal, s, now).Err? && Next(cal, s, Materialize(now)) == s
  {}

  // ---- a stale clock reading does repeat an instant ----

  const MINUTES: Calendar := Calendar(
    text => Some(text), zone => Some(zone), (cron, zone, t) => t % 60 == 0, (cron, zone, t) => Some((t / 60 + 1) * 60))

  /** Moved to another zone with a clock read just before the worker ran: the schedule is due, and stuck. */
  lemma StaleClockRepeatsInstant(text: string, zone: string, other: string, cron: string)
    requires ValidText(text).Ok? && Storable(zone, cron) && Storable(other, cron) && zone != other
    ensures LeastAfter(MINUTES) && Create(MINUTES, text, zone, Recurring, cron, 0).Ok?
    ensures var steps := [Materialize(60), PatchRow(NO_PATCH.(zone := Some(other)), 59)];
      var s := Run(MINUTES, State(Create(MINUTES, text, zone, Recurring, cron, 0).value, []), steps);
      Due(s.row, 61) && !Ahead(s) && forall now :: MaterializeStored(MINUTES, s, now).Err?
  {
    MinutesAreLeast();
    CreatedForSixty(text, zone, cron);
    var start := State(Create(MINUTES, text, zone, Recurring, cron, 0).value, []);
    var (worked, moved) := (Materialize(60), PatchRow(NO_PATCH.(zone := Some(other)), 59));
    RunOfTwo(MINUTES, start, worked, moved);
    WorkedAtSixty(start);
    MovedBack(Next(MINUTES, start, worked), other);
  }

  lemma MinutesAreLeast()
    ensures LeastAfter(MINUTES)
  {}

  lemma CreatedForSixty(text: string, zone: string, cron: string)
    requires ValidText(text).Ok? && Storable(zone, cron)
    ensures Create(MINUTES, text, zone, Recurring, cron, 0)
            == Ok(Row(text, zone, Timing(Recurring, cron), Active, Some(60), 1, None, None))
  {}

  lemma WorkedAtSixty(s: State)
    requires s.executions == [] && s.row.timing.kind.Recurring? && Due(s.row, 60) && s.row.next == Some(60)
      && s.row.version == 1
    ensures Next(MINUTES, s, Materialize(60))
            == State(s.row.(next := Some(120), version := 2), [Execution(60, 2, Recurring, s.row.text, s.row.zone)])
  {}

  lemma MovedBack(s: State, other: string)
    requires |s.executions| == 1 && s.executions[0].scheduledFor == 60 && s.executions[0].version == s.row.version == 2
    requires s.row.status.Active? && s.row.deletedAt.None? && s.row.zone != other && Storable(other, s.row.timing.cron)
    ensures var n := Next(MINUTES, s, PatchRow(NO_PATCH.(zone := Some(other)), 59));
      Due(n.row, 61) && !Ahead(n) && forall now :: MaterializeStored(MINUTES, n, now).Err?
  {
    var n := Next(MINUTES, s, PatchRow(NO_PATCH.(zone := Some(other)), 59));
    assert n == s.(row := s.row.(zone := other, next := Some(60), version := 3));
    assert n.executions[0] in n.executions && IndexOf(n.executions, 60) == Some(0);
  }

  lemma RunOfTwo(cal: Calendar, s: State, first: Step, second: Step)
    ensures Run(cal, s, [first, second]) == Next(cal, Next(cal, s, first), second)
  {
    assert [first, second][..1] == [first] && [first][..0] == [];
    assert Run(cal, s, [first]) == Next(cal, Run(cal, s, []), first);
  }

  // ---- a worker batch ----

  type Store = map<nat, State>

  /** Every schedule of a batch in one transaction: the first failure undoes them all. */
  function MaterializeBatch(cal: Calendar, store: Store, batch: seq<nat>, now: int): Result<Store, Error>
    requires forall id | id in batch :: id in store
  {
    if batch == [] then Ok(store) else
      var before := MaterializeBatch(cal, store, batch[..|batch| - 1], now);
      var id := batch[|batch| - 1];
      if before.Err? then before
      else if id !in before.value then Err(InvalidState)
      else
        match MaterializeStored(cal, before.value[id], now)
        case Err(e) => Err(e)
        case Ok(s) => Ok(before.value[id := s])
  }

  class Worker {
    var store: Store

    constructor (initial: Store)
      ensures store == initial
    {
      store := initial;
    }

    /** One worker pass over a locked batch of due schedules; `inserted` counts the new executions. */
    method MaterializeDue(cal: Calendar, batch: seq<nat>, now: int) returns (inserted: Result<nat, Error>)
      requires LeastAfter(cal)
      requires forall id | id in batch :: id in store
      requires forall i, j | 0 <= i < j < |batch| :: batch[i] != batch[j]
      requires forall id | id in store :: Consistent(cal, store[id])
      modifies this
      ensures var outcome := MaterializeBatch(cal, old(store), batch, now);
        if outcome.Ok? then store == outcome.value && inserted == Ok(|batch|)
        else store == old(store) && inserted == Err(outcome.error)
    {
      var working, count, done := store, 0, 0;
      while done < |batch|
        invariant store == old(store)
        invariant 0 <= done <= |batch| && count == done
        invariant MaterializeBatch(cal, store, batch[..done], now) == Ok(working)
      {
        var id := batch[done];
        assert batch[..done + 1][..done] == batch[..done];
        BatchTouchesOnce(cal, store, batch[..done], now);
        assert id !in batch[..done];
        var next := MaterializeStored(cal, working[id], now);
        if next.Err? {
          FailurePersists(cal, store, batch, done + 1, now);
          return Err(next.error);
        }
        MaterializationPinsSnapshot(cal, working[id], now);
        if |next.value.executions| > |working[id].executions| { count := count + 1; }
        working := working[id := next.value];
        done := done + 1;
      }
      assert batch[..done] == batch;
      store := working;
      return Ok(count);
    }
  }

  lemma {:induction false} FailurePersists(cal: Calendar, store: Store, batch: seq<nat>, k: nat, now: int)
    requires (forall id | id in batch :: id in store) && k <= |batch|
      && MaterializeBatch(cal, store, batch[..k], now).Err?
    ensures MaterializeBatch(cal, store, batch, now) == MaterializeBatch(cal, store, batch[..k], now)
  {
    if k < |batch| {
      var before := batch[..|batch| - 1];
      assert before[..k] == batch[..k];
      FailurePersists(cal, store, before, k, now);
    } else {
      assert batch[..k] == batch;
    }
  }

  /** A committed batch gives each of its schedules exactly one more execution and touches no other. */
  lemma {:induction false} BatchTouchesOnce(cal: Calendar, store: Store, batch: seq<nat>, now: int)
    requires LeastAfter(cal)
    requires forall id | id in batch :: id in store
    requires forall i, j | 0 <= i < j < |batch| :: batch[i] != batch[j]
    requires forall id | id in store :: Consistent(cal, store[id])
    requires MaterializeBatch(cal, store, batch, now).Ok?
    ensures Advanced(cal, store, MaterializeBatch(cal, store, batch, now).value, batch, now)
  {
    if batch != [] {
      var n := |batch| - 1;
      var id := batch[n];
      BatchTouchesOnce(cal, store, batch[..n], now);
      assert batch == batch[..n] + [id];
      assert id !in batch[..n];
      OneMoreExecution(cal, store[id], now);
      OneMoreAdvanced(cal, store, MaterializeBatch(cal, store, batch[..n], now).value, batch[..n], id, now);
    }
  }

  lemma OneMoreAdvanced(cal: Calendar, before: Store, after: Store, batch: seq<nat>, id: nat, now: int)
    requires Advanced(cal, before, after, batch, now) && id in before && id !in batch
    requires MaterializeStored(cal, before[id], now).Ok?
    requires |MaterializeStored(cal, before[id], now).value.executions| == |before[id].executions| + 1
    ensures Advanced(cal, before, after[id := MaterializeStored(cal, before[id], now).value], batch + [id], now)
  {}

  /** The schedules of the batch moved on by one execution each; the others did not change. */
  predicate Advanced(cal: Calendar, before: Store, after: Store, batch: seq<nat>, now: int) {
    && after.Keys == before.Keys
    && forall id | id in before ::
         if id in batch then MaterializeStored(cal, before[id], now) == Ok(after[id])
                             && |after[id].executions| == |before[id].executions| + 1
         else after[id] == before[id]
  }

  lemma OneMoreExecution(cal: Calendar, s: State, now: int)
    requires LeastAfter(cal) && Consistent(cal, s)
    ensures var outcome := MaterializeStored(cal, s, now);
      outcome.Ok? ==> |outcome.value.executions| == |s.executions| + 1
  {}

  /** One stuck schedule in a batch keeps every schedule of the batch from being delivered. */
  lemma StuckScheduleBlocksBatch(cal: Calendar, store: Store, batch: seq<nat>, now: int, id: nat)
    requires LeastAfter(cal) && id in batch
    requires forall id | id in batch :: id in store
    requires forall i, j | 0 <= i < j < |batch| :: batch[i] != batch[j]
    requires forall id | id in store :: Consistent(cal, store[id])
    requires store[id].row.next.Some?
    requires exists e :: e in store[id].executions && e.scheduledFor == store[id].row.next.value
    ensures MaterializeBatch(cal, store, batch, now).Err?
  {
    RepeatedInstantIsStuck(cal, store[id], now);
    if MaterializeBatch(cal, store, batch, now).Ok? {
      BatchTouchesOnce(cal, store, batch, now);
      assert false;
    }
  }

  // ---- what an accepted patch does ----

  /** What a patch names is stored as named, in canonical form; what it leaves out stays. */
  lemma PatchIsApplied(cal: Calendar, s: State, p: Patch, at: int)
    requires PatchStored(cal, s, p, at).Ok?
    ensures var (r, n) := (s.row, PatchStored(cal, s, p, at).value);
      && n.executions == s.executions && n.row.version == r.version + 1
      && n.row.text == (if p.text.Some? then p.text.value else r.text)
      && (if p.zone.Some? then cal.parseZone(p.zone.value) == Some(n.row.zone) else n.row.zone == r.zone)
      && n.row.timing.kind == (if p.kind.Some? then p.kind.value else r.timing.kind)
      && (if p.cron.Set? then cal.parseCron(p.cron.value) == Some(n.row.timing.cron)
          else n.row.timing.cron == r.timing.cron)
      && n.row.status == (if p.status.Some? then p.status.value else r.status)
      && n.row.deletedAt == r.deletedAt && n.row.completedAt == r.completedAt
  {}

  /**
   * The next instant after an accepted patch: none if paused, a new one if the timing changed or it resumes, else as it
   * was.
   */
  lemma PatchSetsNext(cal: Calendar, s: State, p: Patch, at: int)
    requires PatchStored(cal, s, p, at).Ok?
    ensures var (r, n) := (s.row, PatchStored(cal, s, p, at).value.row);
      && (n.status.Paused? ==> n.next.None?)
      && (n.status.Active? && (n.timing != r.timing || n.zone != r.zone || r.status.Paused?) ==>
            n.next.Some? && n.next == cal.next(n.timing.cron, n.zone, at))
      && (n.status.Active? && n.timing == r.timing && n.zone == r.zone && r.status.Active? ==> n.next == r.next)
  {}

  /** When a patch is refused, and by which fault first. */
  lemma PatchRefusals(cal: Calendar, s: State, p: Patch, at: int)
    ensures var (r, answer) := (s.row, PatchStored(cal, s, p, at));
      && (p == NO_PATCH ==> answer == Err(NoFieldsToUpdate))
      && (p != NO_PATCH && r.deletedAt.Some? ==> answer == Err(ArchivedScheduleImmutable))
      && (r.status.Completed? || p.cron.Clear? || p.status == Some(Completed) || r.version >= MAX_STORED_VERSION ==>
          answer.Err?)
      && (p.text.Some? && ((forall c | c in p.text.value :: White(c)) || Utf8Length(p.text.value) > 100_000) ==>
          answer.Err?)
  {}

  /** The fields a patch asks for can be stored. */
  predicate Sensible(cal: Calendar, p: Patch) {
    && p != NO_PATCH && !p.cron.Clear? && p.status != Some(Completed)
    && (p.text.Some? ==> (exists c | c in p.text.value :: !White(c)) && Utf8Length(p.text.value) <= 100_000)
    && (p.zone.Some? ==> cal.parseZone(p.zone.value).Some?)
    && (p.cron.Set? ==> cal.parseCron(p.cron.value).Some?)
  }

  /** A patch is accepted exactly when what it asks for can be stored, and fires if it is to fire. */
  lemma PatchAcceptedIff(cal: Calendar, s: State, p: Patch, at: int)
    ensures PatchStored(cal, s, p, at).Ok? <==>
      && Sensible(cal, p) && s.row.deletedAt.None? && !s.row.status.Completed? && s.row.version < MAX_STORED_VERSION
      && var zone := if p.zone.Some? then cal.parseZone(p.zone.value).value else s.row.zone;
         var cron := if p.cron.Set? then cal.parseCron(p.cron.value).value else s.row.timing.cron;
         var timing := Timing(if p.kind.Some? then p.kind.value else s.row.timing.kind, cron);
         var status := if p.status.Some? then p.status.value else s.row.status;
         && Utf8Length(zone) <= 255 && Utf8Length(cron) <= 1000
         && (status.Active? && (timing != s.row.timing || zone != s.row.zone || s.row.status.Paused?) ==>
               cal.next(cron, zone, at).Some?)
  {}

  // ---- pausing, resuming and archiving ----

  /** Pausing takes the next instant away, resuming looks for one from then on; nothing else changes. */
  lemma StatusIsSet(cal: Calendar, s: State, status: Status, at: int)
    ensures var (r, answer) := (s.row, SetStatusStored(cal, s, status, at));
      && (r.deletedAt.Some? || r.status.Completed? ==> answer == Err(InvalidState))
      && (r.deletedAt.None? && !r.status.Completed? && status == r.status ==> answer == Ok(s))
      && (answer.Ok? && status != r.status ==>
            var n := answer.value.row;
            && answer.value.executions == s.executions
            && n.(status := r.status, next := r.next, version := r.version) == r
            && n.status == status && n.version == r.version + 1
            && n.next == if status.Paused? then None else cal.next(r.timing.cron, r.zone, at))
  {}

  lemma StatusAcceptedIff(cal: Calendar, s: State, status: Status, at: int)
    ensures SetStatusStored(cal, s, status, at).Ok? <==>
      && s.row.deletedAt.None? && !s.row.status.Completed? && !status.Completed?
      && (status != s.row.status ==> s.row.version < MAX_STORED_VERSION)
      && (status.Active? && s.row.status.Paused? ==> cal.next(s.row.timing.cron, s.row.zone, at).Some?)
  {}

  /** Archiving stops the schedule and keeps what it was; archiving again, or after its one run, changes nothing. */
  lemma ArchiveIsApplied(s: State, at: int)
    ensures var (r, answer) := (s.row, ArchiveStored(s, at));
      && (r.deletedAt.Some? || r.status.Completed? ==> answer == Ok(s))
      && (r.deletedAt.None? && !r.status.Completed? && r.version < MAX_STORED_VERSION ==>
            answer.Ok? &&
            var n := answer.value.row;
            && n.deletedAt == Some(at) && n.next.None? && n.version == r.version + 1
            && n.(deletedAt := None, next := r.next, version := r.version) == r
            && answer.value.executions == s.executions)
  {}

  /** What ends, by archiving or by its one run, is purged 45 days after that. */
  lemma EndedIsPurgedLater(cal: Calendar, s: State, step: Step)
    requires RowConsistent(cal, s.row) && !Ended(s.row) && Ended(Next(cal, s, step).row)
    ensures RetentionDeadline(Next(cal, s, step).row) == Some(CapturedAt(step) + 45 * 24 * 3600 * 1_000_000)
    ensures step.ArchiveRow? || (step.Materialize? && s.row.timing.kind.OneTime?)
  {}
}
