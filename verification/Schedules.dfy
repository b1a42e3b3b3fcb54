// The schedule aggregate and its stored row: merge patches, archival and materialization
// (src/domain/schedule.rs, src/worker/scheduler.rs, src/infrastructure/postgres/repository).
module Schedules {
  import opened Wrappers

  const MAX_TEXT_BYTES: nat := 100_000
  const MAX_ZONE_BYTES: nat := 255
  const MAX_CRON_BYTES: nat := 1_000
  const MAX_VERSION: nat := 0xffff_ffff_ffff_ffff
  const MAX_STORED_VERSION: nat := 0x7fff_ffff_ffff_ffff
  const DAY: int := 86_400_000_000
  const RETENTION: int := 45 * DAY

  datatype Kind = OneTime | Recurring
  datatype Status = Active | Paused | Completed
  datatype Timing = Timing(kind: Kind, cron: string)

  datatype Row = Row(text: string, zone: string, timing: Timing, status: Status, next: Option<int>, version: nat,
                     deletedAt: Option<int>, completedAt: Option<int>)

  /** Cron and time-zone knowledge: parsers to canonical text, the matching instants, the next one. */
  datatype Calendar = Calendar(parseCron: string -> Option<string>, parseZone: string -> Option<string>,
                               matches: (string, string, int) -> bool, next: (string, string, int) -> Option<int>)

  /** `next` is the least matching instant strictly after, whenever it finds one. */
  ghost predicate LeastAfter(cal: Calendar) {
    forall cron, zone, after | cal.next(cron, zone, after).Some? ::
      var n := cal.next(cron, zone, after).value;
      after < n && cal.matches(cron, zone, n) && forall t | after < t < n :: !cal.matches(cron, zone, t)
  }

  datatype Error =
    | NoFieldsToUpdate | ArchivedScheduleImmutable | EmptyText | TextTooLong | InvalidTimezone
    | CronRequired | InvalidCron
    | CompletedIsTerminal | ClientCannotComplete | RecurringCannotComplete | NoFutureOccurrence
    | StalePatch(expected: nat, actual: nat) | VersionExhausted
    | NotDue | InvalidState | InvalidInput

  datatype PatchValue = Unchanged | Clear | Set(value: string)

  datatype Patch = Patch(text: Option<string>, zone: Option<string>, kind: Option<Kind>, cron: PatchValue,
                         status: Option<Status>)

  datatype ValidPatch = ValidPatch(expected: nat, text: string, zone: string, timing: Timing, status: Status,
                                   next: Option<int>)

  // ---- validation ----

  /** Unicode white space, which trimming removes. */
  predicate White(c: char) {
    || '\U{9}' <= c <= '\U{d}' || c == ' ' || c == '\U{85}' || c == '\U{a0}' || c == '\U{1680}'
    || '\U{2000}' <= c <= '\U{200a}'
    || c == '\U{2028}' || c == '\U{2029}' || c == '\U{202f}' || c == '\U{205f}' || c == '\U{3000}'
  }

  function Utf8Length(s: string): nat {
    if s == "" then 0 else
      (if s[0] < '\U{80}' then 1 else if s[0] < '\U{800}' then 2 else if s[0] < '\U{10000}' then 3 else 4)
        + Utf8Length(s[1..])
  }

  function ValidText(text: string): Result<string, Error> {
    if forall c | c in text :: White(c) then Err(EmptyText)
    else if Utf8Length(text) > MAX_TEXT_BYTES then Err(TextTooLong)
    else Ok(text)
  }

  /** The store takes no longer time zone or cron expression. */
  predicate Storable(zone: string, cron: string) {
    Utf8Length(zone) <= MAX_ZONE_BYTES && Utf8Length(cron) <= MAX_CRON_BYTES
  }

  function Transition(from: Status, to: Status): Option<Error> {
    if from.Completed? then Some(CompletedIsTerminal)
    else if to.Completed? then Some(ClientCannotComplete)
    else None
  }

  function Create(cal: Calendar, text: string, zone: string, kind: Kind, cron: string, now: int): Result<Row, Error> {
    match ValidText(text)
    case Err(e) => Err(e)
    case Ok(text) =>
      match cal.parseZone(zone)
      case None => Err(InvalidTimezone)
      case Some(zone) =>
        match cal.parseCron(cron)
        case None => Err(InvalidCron)
        case Some(cron) =>
          var next := cal.next(cron, zone, now);
          if next.None? then Err(NoFutureOccurrence)
          else if !Storable(zone, cron) then Err(InvalidInput)
          else Ok(Row(text, zone, Timing(kind, cron), Active, next, 1, None, None))
  }

  /** The merged timing, or the fault in the new cron expression. */
  function MergedTiming(cal: Calendar, p: Patch, r: Row): Result<Timing, Error> {
    var kind := if p.kind.Some? then p.kind.value else r.timing.kind;
    match p.cron
    case Unchanged => Ok(Timing(kind, r.timing.cron))
    case Clear => Err(CronRequired)
    case Set(value) =>
      var cron := cal.parseCron(value);
      if cron.None? then Err(InvalidCron) else Ok(Timing(kind, cron.value))
  }

  /** What makes the next occurrence be computed anew. */
  predicate Recomputed(r: Row, timing: Timing, zone: string, status: Status) {
    status.Active? && (timing != r.timing || zone != r.zone || r.status.Paused?)
  }

  function Validate(cal: Calendar, p: Patch, r: Row, now: int): Result<ValidPatch, Error> {
    if p.text.None? && p.zone.None? && p.kind.None? && p.cron.Unchanged? && p.status.None? then Err(NoFieldsToUpdate)
    else if r.deletedAt.Some? then Err(ArchivedScheduleImmutable)
    else
      var text := if p.text.Some? then ValidText(p.text.value) else Ok(r.text);
      var zone := if p.zone.Some? then cal.parseZone(p.zone.value) else Some(r.zone);
      if text.Err? then Err(text.error)
      else if zone.None? then Err(InvalidTimezone)
      else
        var timing := MergedTiming(cal, p, r);
        var status := if p.status.Some? then p.status.value else r.status;
        if timing.Err? then Err(timing.error)
        else if Transition(r.status, status).Some? then Err(Transition(r.status, status).value)
        else
          var next := if status.Paused? then None
                      else if Recomputed(r, timing.value, zone.value, status)
                      then cal.next(timing.value.cron, zone.value, now) else r.next;
          if Recomputed(r, timing.value, zone.value, status) && next.None? then Err(NoFutureOccurrence)
          else Ok(ValidPatch(r.version, text.value, zone.value, timing.value, status, next))
  }

  function Patched(r: Row, v: ValidPatch): Row {
    r.(text := v.text, zone := v.zone, timing := v.timing, status := v.status, next := v.next, version := r.version + 1)
  }

  /** The purge deadline of an archived schedule. */
  function RetentionDeadline(r: Row): Option<int> {
    if r.deletedAt.Some? then Some(r.deletedAt.value + RETENTION)
    else if r.completedAt.Some? then Some(r.completedAt.value + RETENTION)
    else None
  }

  /** The in-memory aggregate. */
  class Schedule {
    var text: string
    var zone: string
    var timing: Timing
    var status: Status
    var next: Option<int>
    var version: nat
    var deletedAt: Option<int>
    var updatedAt: int

    constructor (r: Row, at: int)
      requires r.completedAt == if r.status.Completed? then Some(at) else None
      ensures View() == r && updatedAt == at
    {
      text, zone, timing, status, next, version, deletedAt, updatedAt :=
        r.text, r.zone, r.timing, r.status, r.next, r.version, r.deletedAt, at;
    }

    function View(): Row
      reads this
    {
      Row(text, zone, timing, status, next, version, deletedAt, if status.Completed? then Some(updatedAt) else None)
    }

    method ApplyPatch(v: ValidPatch, at: int) returns (error: Option<Error>)
      modifies this
      ensures error == if old(version) != v.expected then Some(StalePatch(v.expected, old(version)))
                       else if old(version) >= MAX_VERSION then Some(VersionExhausted) else None
      ensures View() == if error.Some? then old(View())
                        else Patched(old(View()), v).(completedAt := if v.status.Completed? then Some(at) else None)
      ensures updatedAt == if error.Some? then old(updatedAt) else at
    {
      if version != v.expected {
        return Some(StalePatch(v.expected, version));
      }
      if version >= MAX_VERSION {
        return Some(VersionExhausted);
      }
      text, zone, timing, status, next := v.text, v.zone, v.timing, v.status, v.next;
      updatedAt := at;
      version := version + 1;
      return None;
    }

    method ArchiveTriggeredOneTime(at: int) returns (error: Option<Error>)
      modifies this
      ensures error == if old(deletedAt).Some? then Some(ArchivedScheduleImmutable)
                       else if old(timing).kind.Recurring? then Some(RecurringCannotComplete)
                       else if old(status).Completed? || old(version) < MAX_VERSION then None
                       else Some(VersionExhausted)
      ensures View() == if error.Some? || old(status).Completed? then old(View())
                        else old(View()).(status := Completed, next := None, version := old(version) + 1,
                                          completedAt := Some(at))
    {
      if deletedAt.Some? {
        return Some(ArchivedScheduleImmutable);
      }
      if !timing.kind.OneTime? {
        return Some(RecurringCannotComplete);
      }
      if status.Completed? {
        return None;
      }
      if version >= MAX_VERSION {
        return Some(VersionExhausted);
      }
      status, next, updatedAt, version := Completed, None, at, version + 1;
      return None;
    }

    method Archive(at: int) returns (error: Option<Error>)
      modifies this
      ensures old(View()).deletedAt.Some? || old(status).Completed? ==> error.None? && View() == old(View())
      ensures old(View()).deletedAt.None? && !old(status).Completed? ==>
        error == (if old(version) < MAX_VERSION then None else Some(VersionExhausted))
        && View() == if error.Some? then old(View())
                     else old(View()).(deletedAt := Some(at), next := None, version := old(version) + 1)
    {
      if deletedAt.Some? || status.Completed? {
        return None;
      }
      if version >= MAX_VERSION {
        return Some(VersionExhausted);
      }
      deletedAt, next, updatedAt, version := Some(at), None, at, version + 1;
      return None;
    }
  }

  // ---- stored rows and their executions ----

  /** One materialized occurrence with its snapshot of the schedule. */
  datatype Execution = Execution(scheduledFor: int, version: nat, kind: Kind, text: string, zone: string)

  datatype State = State(row: Row, executions: seq<Execution>)

  datatype Step =
    | PatchRow(patch: Patch, at: int)            // `at` is captured before the row is read
    | SetStatus(status: Status, at: int)
    | ArchiveRow(at: int)
    | Materialize(now: int)

  predicate Ended(r: Row) { r.deletedAt.Some? || r.status.Completed? }

  const NO_PATCH := Patch(None, None, None, Unchanged, None)

  /** A patch request: read, validated, and written only over the version that was read. */
  function PatchStored(cal: Calendar, s: State, p: Patch, at: int): Result<State, Error> {
    match Validate(cal, p, s.row, at)
    case Err(e) => Err(e)
    case Ok(v) => if !Storable(v.zone, v.timing.cron) then Err(InvalidInput) else WritePatch(s, v)
  }

  function WritePatch(s: State, v: ValidPatch): Result<State, Error> {
    if s.row.version >= MAX_STORED_VERSION then Err(VersionExhausted) else Ok(s.(row := Patched(s.row, v)))
  }

  /** One schedule of a bulk status change. */
  function SetStatusStored(cal: Calendar, s: State, status: Status, at: int): Result<State, Error> {
    if Ended(s.row) then Err(InvalidState)
    else if status.Completed? then Err(InvalidInput)
    else if s.row.status == status then Ok(s)
    else
      match Validate(cal, NO_PATCH.(status := Some(status)), s.row, at)
      case Err(e) => Err(e)
      case Ok(v) => WritePatch(s, v)
  }

  function ArchiveStored(s: State, at: int): Result<State, Error> {
    if Ended(s.row) then Ok(s)
    else if s.row.version >= MAX_STORED_VERSION then Err(VersionExhausted)
    else Ok(s.(row := s.row.(deletedAt := Some(at), next := None, version := s.row.version + 1)))
  }

  predicate Due(r: Row, now: int) { r.status.Active? && r.deletedAt.None? && r.next.Some? && r.next.value <= now }

  function NextAfterMaterialization(cal: Calendar, r: Row, now: int): Result<Option<int>, Error> {
    if r.timing.kind.OneTime? then Ok(None)
    else
      var next := cal.next(r.timing.cron, r.zone, now);
      if next.None? then Err(NoFutureOccurrence) else Ok(next)
  }

  function IndexOf(executions: seq<Execution>, instant: int): (i: Option<nat>)
    ensures i.Some? ==> i.value < |executions| && executions[i.value].scheduledFor == instant
    ensures i.None? ==> forall e | e in executions :: e.scheduledFor != instant
  {
    if executions == [] then None
    else if executions[|executions| - 1].scheduledFor == instant then Some(|executions| - 1)
    else
      assert executions == executions[..|executions| - 1] + [executions[|executions| - 1]];
      IndexOf(executions[..|executions| - 1], instant)
  }

  /** Turns the due instant into an execution, once per instant, and advances the row. */
  function MaterializeStored(cal: Calendar, s: State, now: int): Result<State, Error> {
    var r := s.row;
    if !Due(r, now) then Err(NotDue)
    else
      match NextAfterMaterialization(cal, r, now)
      case Err(e) => Err(e)
      case Ok(next) =>
        if next.Some? && next.value <= now then Err(InvalidInput)
        else if r.version >= MAX_STORED_VERSION then Err(InvalidState)
        else
          var made := Execution(r.next.value, r.version + 1, r.timing.kind, r.text, r.zone);
          var known := IndexOf(s.executions, r.next.value);
          if known.Some? && (s.executions[known.value].version != made.version
                             || s.executions[known.value].kind != made.kind)
          then Err(InvalidState)
          else
            var executions := if known.Some? then s.executions else s.executions + [made];
            var row := if r.timing.kind.OneTime?
                       then r.(next := next, status := Completed, completedAt := Some(now), version := r.version + 1)
                       else r.(next := next, version := r.version + 1);
            Ok(State(row, executions))
  }

  function Apply(cal: Calendar, s: State, step: Step): Result<State, Error> {
    match step
    case PatchRow(p, at) => PatchStored(cal, s, p, at)
    case SetStatus(status, at) => SetStatusStored(cal, s, status, at)
    case ArchiveRow(at) => ArchiveStored(s, at)
    case Materialize(now) => MaterializeStored(cal, s, now)
  }

  /** A refused step rolls back. */
  function Next(cal: Calendar, s: State, step: Step): State {
    var outcome := Apply(cal, s, step);
    if outcome.Ok? then outcome.value else s
  }

  function Run(cal: Calendar, s: State, steps: seq<Step>): State {
    if steps == [] then s else Next(cal, Run(cal, s, steps[..|steps| - 1]), steps[|steps| - 1])
  }
}
