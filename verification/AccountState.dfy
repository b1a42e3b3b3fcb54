// One cached account: what tokens, webhook events and lookups do to its row
// (src/infrastructure/identity.rs, src/infrastructure/account_events.rs).
//
// Instants are microseconds; a token's issue time has whole-second precision.
module AccountState {
  import opened Wrappers
  import opened Delegation

  const SECOND: int := 1_000_000

  type Uuid = string
  datatype Kind = Carbon | Silicon
  datatype Status = Active | AccessRemoved | Deleted
  datatype Custodian = Custodian(uuid: Uuid, id: string)

  datatype Row = Row(
    kind: Option<Kind>, publicId: string, displayName: string, pfpUrl: string, custodian: Option<Custodian>,
    status: Status, profileVersion: int, idObservedAt: Option<int>, custodianObservedAt: Option<int>,
    revokedBefore: Option<int>, lastTokenIat: Option<int>, primaryKey: bool)

  /** An account as `account.updated` carries it; a custodian Remind cannot read counts as none. */
  datatype Profile = Profile(uuid: Uuid, kind: Kind, displayName: string, pfpUrl: string,
                             custodian: Option<Custodian>, version: int)

  datatype Payload =
    | AccountIdChanged(newId: string, kind: Option<Kind>)
    | AccountUpdated(account: Option<Profile>)
    | CustodianChanged(to: Option<Custodian>)
    | MembershipSignedOut(appRevoked: bool)
    | MembershipAccessRemoved
    | AccountDeleted
    | Unused

  /** What a successful re-read of Silicon Accounts returned. */
  datatype Summary = Summary(kind: Kind, id: string, custodian: Option<Custodian>, deleted: bool)
  datatype Reread = Reread(summary: Option<Summary>, member: Option<(string, string)>)

  datatype TokenError = AccountWasDeleted | TokenRevoked | TokenKindMismatch
  datatype Outcome = Processed | Duplicate | Ignored

  predicate Before(stored: Option<int>, at: int) { stored.None? || stored.value < at }

  function Greatest(stored: Option<int>, at: int): Option<int> {
    if stored.None? || stored.value < at then Some(at) else stored
  }

  // ---- SQL statements, each on one row ----

  function NewRow(kind: Option<Kind>): Row {
    Row(kind, "", "", "", None, Active, 0, None, None, None, None, false)
  }

  function EnsureRow(r: Option<Row>, kind: Option<Kind>): Row {
    match r
    case None => NewRow(kind)
    case Some(row) => row.(kind := if row.kind.None? then kind else row.kind)
  }

  function SetCutoff(row: Row, at: int): Row { row.(revokedBefore := Greatest(row.revokedBefore, at)) }

  function Suspend(row: Row, at: int): Row {
    if row.status == Active && (row.lastTokenIat.None? || row.lastTokenIat.value <= at)
    then row.(status := AccessRemoved) else row
  }

  function Anonymise(row: Row): Row {
    row.(status := Deleted, publicId := "", displayName := "", pfpUrl := "", custodian := None)
  }

  function UpdateProfile(row: Row, account: Profile, at: int): Row {
    if row.profileVersion >= account.version then row else
      var takesCustodian := row.kind == Some(Silicon) && Before(row.custodianObservedAt, at);
      row.(displayName := account.displayName, pfpUrl := account.pfpUrl,
           custodian := if takesCustodian && account.custodian.Some? then account.custodian else row.custodian,
           custodianObservedAt := Greatest(row.custodianObservedAt, at),
           profileVersion := account.version)
  }

  // ---- the operations, as functions of the row they find ----

  function RemoveAccess(r: Option<Row>, at: int): Row { Suspend(SetCutoff(EnsureRow(r, None), at), at) }

  function DeleteAccount(r: Option<Row>, at: int): Row { Anonymise(SetCutoff(EnsureRow(r, None), at)) }

  /** The effect of one event on its subject's row, inside the receipt's transaction. */
  function ApplyPayload(r: Option<Row>, p: Payload, reread: Reread, at: int): Option<Row> {
    match p
    case AccountIdChanged(newId, kind) =>
      if reread.summary.Some? then r else
        var row := EnsureRow(r, kind);
        Some(if Before(row.idObservedAt, at) then row.(publicId := newId, idObservedAt := Some(at)) else row)
    case AccountUpdated(account) =>
      if reread.member.Some? || account.None? then r
      else Some(UpdateProfile(EnsureRow(r, Some(account.value.kind)), account.value, at))
    case CustodianChanged(to) =>
      if reread.summary.Some? || to.None? then r else
        var row := EnsureRow(r, Some(Silicon));
        Some(if row.kind == Some(Silicon) && Before(row.custodianObservedAt, at)
             then row.(custodian := to, custodianObservedAt := Some(at)) else row)
    case MembershipSignedOut(appRevoked) => if appRevoked then r else Some(SetCutoff(EnsureRow(r, None), at))
    case MembershipAccessRemoved => Some(RemoveAccess(r, at))
    case AccountDeleted => Some(DeleteAccount(r, at))
    case Unused => r
  }

  /** A lookup's answer: authoritative, except that a deleted row stays as it is. */
  function ApplySummary(r: Option<Row>, s: Summary, now: int): Row {
    var custodian := if s.kind == Silicon then s.custodian else None;
    var status := if s.deleted then Deleted else if r.Some? then r.value.status else Active;
    var written :=
      if r.Some? && r.value.status == Deleted then r.value else
        var row := if r.Some? then r.value else NewRow(None);
        row.(kind := Some(s.kind), publicId := s.id, custodian := custodian, status := status,
             idObservedAt := Some(now), custodianObservedAt := Some(now));
    if s.deleted then DeleteAccount(Some(written), now) else written
  }

  function ApplyMember(r: Option<Row>, member: (string, string)): Option<Row> {
    if r.Some? && r.value.status != Deleted
    then Some(r.value.(displayName := member.0, pfpUrl := member.1)) else r
  }

  function StoreReread(r: Option<Row>, reread: Reread, now: int): Option<Row> {
    var afterSummary := if reread.summary.Some? then Some(ApplySummary(r, reread.summary.value, now)) else r;
    if reread.member.Some? then ApplyMember(afterSummary, reread.member.value) else afterSummary
  }

  /** Why a token issued at second `iat` is refused outright, if it is. */
  function TokenFault(row: Row, iat: int): Option<TokenError> {
    if row.status == Deleted then Some(AccountWasDeleted)
    else if row.revokedBefore.Some? && iat <= row.revokedBefore.value / SECOND then Some(TokenRevoked)
    else None
  }

  /** Presenting a token, always taking the write path. The flag says whether this is the account's first token. */
  function PresentToken(r: Option<Row>, kind: Kind, id: string, iat: int): Result<(Row, bool), TokenError> {
    var row := if r.Some? then r.value
               else NewRow(Some(kind)).(publicId := id, lastTokenIat := Some(iat * SECOND));
    var fault := TokenFault(row, iat);
    if fault.Some? then Err(fault.value)
    else if row.kind.Some? && row.kind.value != kind then Err(TokenKindMismatch)
    else Ok((row.(kind := Some(kind),
                  status := if row.status == AccessRemoved then Active else row.status,
                  lastTokenIat := Greatest(row.lastTokenIat, iat * SECOND),
                  primaryKey := true),
             row.lastTokenIat.None?))
  }

  function AfterToken(r: Option<Row>, kind: Kind, id: string, iat: int): Option<Row> {
    var outcome := PresentToken(r, kind, id, iat);
    if outcome.Ok? then Some(outcome.value.0) else r
  }

  /** Resolving a proof only makes sure that the row and its key exist. */
  function AfterProof(r: Option<Row>, kind: Option<Kind>, id: string): Row {
    var row := if r.Some? then EnsureRow(r, kind) else NewRow(kind).(publicId := id);
    row.(primaryKey := true)
  }

  // ---- what accounts own and share ----

  /** One reminder, by the account that owns it; `undelivered` counts its pending and retrying deliveries. */
  datatype Reminder = Reminder(owner: Uuid, archived: bool, completed: bool, undelivered: nat)

  /** Reminders, active subscriptions by owner, and what accounts delegate. */
  datatype Holdings = Holdings(reminders: map<nat, Reminder>, subscriptions: set<(Uuid, nat)>, delegations: Delegations)

  datatype Cleanup = Keep | Silence | End

  /** Losing access stops deliveries; deletion also archives reminders and ends subscriptions and delegations. */
  function Cleaned(h: Holdings, uuid: Uuid, cleanup: Cleanup): Holdings {
    match cleanup
    case Keep => h
    case Silence =>
      h.(reminders := map x | x in h.reminders :: var r := h.reminders[x];
         if r.owner == uuid then r.(undelivered := 0) else r)
    case End =>
      Holdings(
        (map x | x in h.reminders :: var r := h.reminders[x];
           if r.owner == uuid then r.(undelivered := 0, archived := r.archived || !r.completed) else r),
        (set subscription | subscription in h.subscriptions && subscription.0 != uuid),
        Without(h.delegations, uuid))
  }

  function CustodianUuid(r: Option<Row>): Option<Uuid> {
    if r.Some? && r.value.custodian.Some? then Some(r.value.custodian.value.uuid) else None
  }

  /** A write to the account's row, with the trigger on its custodian. */
  function Written(h: Holdings, uuid: Uuid, before: Option<Row>, after: Option<Row>): Holdings {
    h.(delegations := Fenced(h.delegations, uuid, CustodianUuid(before), CustodianUuid(after)))
  }

  /** What an event's transaction cleans up for its subject. */
  function CleanupFor(r: Option<Row>, p: Payload, at: int): Cleanup {
    if p.AccountDeleted? then End
    else if p.MembershipAccessRemoved? && EnsureRow(r, None).status == Active
            && RemoveAccess(r, at).status == AccessRemoved then Silence
    else Keep
  }

  function HoldingsAfterEvent(h: Holdings, uuid: Uuid, r: Option<Row>, p: Payload, reread: Reread, at: int): Holdings {
    Cleaned(Written(h, uuid, r, ApplyPayload(r, p, reread, at)), uuid, CleanupFor(r, p, at))
  }

  function HoldingsAfterSummary(h: Holdings, uuid: Uuid, r: Option<Row>, s: Summary, now: int): Holdings {
    Cleaned(Written(h, uuid, r, Some(ApplySummary(r, s, now))), uuid, if s.deleted then End else Keep)
  }

  function HoldingsAfterReread(h: Holdings, uuid: Uuid, r: Option<Row>, reread: Reread, now: int): Holdings {
    if reread.summary.Some? then HoldingsAfterSummary(h, uuid, r, reread.summary.value, now) else h
  }

  /** A delivery's event, then its re-read. */
  function HoldingsAfterDelivery(h: Holdings, uuid: Uuid, r: Option<Row>, p: Payload, reread: Reread, at: int,
                                 now: int): Holdings {
    var event := HoldingsAfterEvent(h, uuid, r, p, reread, at);
    HoldingsAfterReread(event, uuid, ApplyPayload(r, p, reread, at), reread, now)
  }

  /** Events that change nothing. */
  predicate Unheeded(p: Payload) { p.Unused? || (p.MembershipSignedOut? && p.appRevoked) }

  /** The accounts an event names: its subject, if it has one, the account it carries and the custodian. */
  function Named(uuid: Uuid, p: Payload): set<Uuid> {
    match p
    case Unused => {}
    case AccountUpdated(Some(account)) =>
      {uuid, account.uuid} + if account.custodian.Some? then {account.custodian.value.uuid} else {}
    case CustodianChanged(Some(custodian)) => {uuid, custodian.uuid}
    case _ => {uuid}
  }

  /** The accounts table, what accounts hold, and the receipts of applied events, all updated in place. */
  class AccountStore {
    var rows: map<Uuid, Row>
    var holdings: Holdings
    var receipts: set<string>

    constructor ()
      ensures rows == map[] && receipts == {} && holdings == Holdings(map[], {}, Delegations(map[], map[]))
    {
      rows, receipts, holdings := map[], {}, Holdings(map[], {}, Delegations(map[], map[]));
    }

    function Find(uuid: Uuid): Option<Row>
      reads this
    {
      if uuid in rows then Some(rows[uuid]) else None
    }

    /** The read-only fast path: when it answers, the write path would answer the same and change nothing. */
    method TryFast(uuid: Uuid, kind: Kind, id: string, iat: int)
      returns (answer: Option<Result<(Row, bool), TokenError>>)
      ensures answer.Some? ==> answer.value == PresentToken(Find(uuid), kind, id, iat)
      ensures answer.Some? && answer.value.Ok? ==> uuid in rows && answer.value.value.0 == rows[uuid]
    {
      if uuid !in rows {
        return None;
      }
      var row := rows[uuid];
      var fault := TokenFault(row, iat);
      if fault.Some? {
        return Some(Err(fault.value));
      }
      if row.kind == Some(kind) && row.status == Active
         && row.lastTokenIat.Some? && row.lastTokenIat.value >= iat * SECOND && row.primaryKey {
        return Some(Ok((row, false)));
      }
      return None;
    }

    /** The write path, which checks the token again under the row's lock. */
    method PresentUnderLock(uuid: Uuid, kind: Kind, id: string, iat: int)
      returns (outcome: Result<(Row, bool), TokenError>)
      modifies this`rows
      ensures outcome == PresentToken(old(Find(uuid)), kind, id, iat)
      ensures rows == if outcome.Ok? then old(rows)[uuid := outcome.value.0] else old(rows)
    {
      var row := if uuid in rows then rows[uuid]
                 else NewRow(Some(kind)).(publicId := id, lastTokenIat := Some(iat * SECOND));
      var fault := TokenFault(row, iat);
      if fault.Some? {
        return Err(fault.value);
      }
      var firstSignIn := row.lastTokenIat.None?;
      if row.kind.Some? && row.kind.value != kind {
        return Err(TokenKindMismatch);
      }
      if row.kind.None? {
        row := row.(kind := Some(kind));
      }
      if row.status == AccessRemoved {
        row := row.(status := Active);
      }
      row := row.(lastTokenIat := Greatest(row.lastTokenIat, iat * SECOND));
      row := row.(primaryKey := true);
      rows := rows[uuid := row];
      return Ok((row, firstSignIn));
    }

    method ObserveToken(uuid: Uuid, kind: Kind, id: string, iat: int) returns (outcome: Result<(Row, bool), TokenError>)
      modifies this`rows
      ensures outcome == PresentToken(old(Find(uuid)), kind, id, iat)
      ensures rows == if outcome.Ok? then old(rows)[uuid := outcome.value.0] else old(rows)
    {
      var fast := TryFast(uuid, kind, id, iat);
      if fast.Some? {
        return fast.value;
      }
      outcome := PresentUnderLock(uuid, kind, id, iat);
    }

    /**
     * One verified delivery. An event that names a retired account id leaves no trace; any other takes effect once by
     * its receipt, whatever is delivered again. The event and its re-read are separate transactions; here nothing else
     * comes between them.
     */
    method Apply(uuid: Uuid, eventId: string, payload: Payload, reread: Reread, occurredAt: int, now: int,
                 retired: set<Uuid>)
      returns (outcome: Outcome)
      modifies this
      ensures Named(uuid, payload) * retired != {} ==>
        outcome == Ignored && receipts == old(receipts) && rows == old(rows) && holdings == old(holdings)
      ensures Named(uuid, payload) * retired == {} ==>
        && receipts == old(receipts) + {eventId}
        && (outcome == Duplicate <==> eventId in old(receipts))
        && (outcome == Ignored <==> eventId !in old(receipts) && Unheeded(payload))
        && (outcome == Duplicate ==> rows == old(rows) && holdings == old(holdings))
        && (outcome != Duplicate ==>
              var row := StoreReread(ApplyPayload(old(Find(uuid)), payload, reread, occurredAt), reread, now);
              && rows == (if row.Some? then old(rows)[uuid := row.value] else old(rows))
              && holdings == HoldingsAfterDelivery(old(holdings), uuid, old(Find(uuid)), payload, reread, occurredAt,
                                                   now))
    {
      if Named(uuid, payload) * retired != {} {
        return Ignored;
      }
      outcome := ApplyEventOnce(uuid, eventId, payload, reread, occurredAt);
      if outcome != Duplicate {
        StoreFindings(uuid, reread, now);
      }
    }

    /** What the re-read found out, after the event's transaction. */
    method StoreFindings(uuid: Uuid, reread: Reread, now: int)
      modifies this`rows, this`holdings
      ensures var row := StoreReread(old(Find(uuid)), reread, now);
        rows == if row.Some? then old(rows)[uuid := row.value] else old(rows)
      ensures holdings == HoldingsAfterReread(old(holdings), uuid, old(Find(uuid)), reread, now)
    {
      if reread.summary.Some? { StoreSummary(uuid, reread.summary.value, now); }
      if reread.member.Some? { StoreMember(uuid, reread.member.value); }
    }

    /** The receipt's transaction. */
    method ApplyEventOnce(uuid: Uuid, eventId: string, payload: Payload, reread: Reread, occurredAt: int)
      returns (outcome: Outcome)
      modifies this
      ensures receipts == old(receipts) + {eventId}
      ensures outcome ==
        if eventId in old(receipts) then Duplicate else if Unheeded(payload) then Ignored else Processed
      ensures outcome == Duplicate ==> rows == old(rows) && holdings == old(holdings)
      ensures outcome != Duplicate ==>
        var row := ApplyPayload(old(Find(uuid)), payload, reread, occurredAt);
        && rows == (if row.Some? then old(rows)[uuid := row.value] else old(rows))
        && holdings == HoldingsAfterEvent(old(holdings), uuid, old(Find(uuid)), payload, reread, occurredAt)
    {
      if eventId in receipts {
        return Duplicate;
      }
      receipts := receipts + {eventId};
      var row, cleanup;
      outcome, row, cleanup := ApplyEvent(Find(uuid), payload, reread, occurredAt);
      WriteRow(uuid, row);
      holdings := Cleaned(holdings, uuid, cleanup);
    }

    /** Writes a row, with the trigger on its custodian. */
    method WriteRow(uuid: Uuid, row: Option<Row>)
      requires row.None? ==> uuid !in rows
      modifies this`rows, this`holdings
      ensures rows == if row.Some? then old(rows)[uuid := row.value] else old(rows)
      ensures holdings == Written(old(holdings), uuid, old(Find(uuid)), row)
    {
      holdings := Written(holdings, uuid, Find(uuid), row);
      if row.Some? {
        rows := rows[uuid := row.value];
      }
    }

    /** A lookup's answer. */
    method StoreSummary(uuid: Uuid, s: Summary, now: int)
      modifies this`rows, this`holdings
      ensures rows == old(rows)[uuid := ApplySummary(old(Find(uuid)), s, now)]
      ensures holdings == HoldingsAfterSummary(old(holdings), uuid, old(Find(uuid)), s, now)
    {
      WriteRow(uuid, Some(ApplySummary(Find(uuid), s, now)));
      if s.deleted { holdings := Cleaned(holdings, uuid, End); }
    }

    /** The name and photo an account shares. */
    method StoreMember(uuid: Uuid, member: (string, string))
      modifies this`rows
      ensures var row := ApplyMember(old(Find(uuid)), member);
        rows == if row.Some? then old(rows)[uuid := row.value] else old(rows)
    {
      if uuid in rows && rows[uuid].status != Deleted {
        rows := rows[uuid := rows[uuid].(displayName := member.0, pfpUrl := member.1)];
      }
    }

    /** The event inside the receipt's transaction. */
    static method ApplyEvent(before: Option<Row>, payload: Payload, reread: Reread, at: int)
      returns (outcome: Outcome, row: Option<Row>, cleanup: Cleanup)
      ensures outcome == if Unheeded(payload) then Ignored else Processed
      ensures row == ApplyPayload(before, payload, reread, at)
      ensures cleanup == CleanupFor(before, payload, at)
    {
      outcome, row, cleanup := Processed, before, Keep;
      match payload {
        case AccountIdChanged(_, _) | CustodianChanged(_) | AccountUpdated(_) =>
          row := ApplyData(row, payload, reread, at);
        case MembershipSignedOut(appRevoked) =>
          if appRevoked {
            outcome := Ignored;
          } else {
            row := Some(SetCutoff(EnsureRow(row, None), at));
          }
        case MembershipAccessRemoved =>
          var cut := SetCutoff(EnsureRow(row, None), at);
          if cut.status == Active && (cut.lastTokenIat.None? || cut.lastTokenIat.value <= at) {
            cut, cleanup := cut.(status := AccessRemoved), Silence;
          }
          row := Some(cut);
        case AccountDeleted =>
          row, cleanup := Some(Anonymise(SetCutoff(EnsureRow(row, None), at))), End;
        case Unused =>
          outcome := Ignored;
      }
    }

    /** Data events: skipped when a re-read will settle them, else applied under their ordering guard. */
    static method ApplyData(before: Option<Row>, payload: Payload, reread: Reread, at: int) returns (row: Option<Row>)
      requires payload.AccountIdChanged? || payload.CustodianChanged? || payload.AccountUpdated?
      ensures row == ApplyPayload(before, payload, reread, at)
    {
      row := before;
      match payload {
        case AccountIdChanged(newId, kind) =>
          if reread.summary.None? {
            var known := EnsureRow(row, kind);
            if Before(known.idObservedAt, at) {
              known := known.(publicId := newId, idObservedAt := Some(at));
            }
            row := Some(known);
          }
        case AccountUpdated(account) =>
          if reread.member.None? && account.Some? {
            row := Some(UpdateProfile(EnsureRow(row, Some(account.value.kind)), account.value, at));
          }
        case CustodianChanged(to) =>
          if reread.summary.None? && to.Some? {
            var known := EnsureRow(row, Some(Silicon));
            if known.kind == Some(Silicon) && Before(known.custodianObservedAt, at) {
              known := known.(custodian := to, custodianObservedAt := Some(at));
            }
            row := Some(known);
          }
      }
    }
  }

  // ---- everything that can happen to a row ----

  /** One transaction each: others may come between an event and its re-read. */
  datatype Happening =
    | Presented(tokenKind: Kind, tokenId: string, iat: int)
    | Delivered(payload: Payload, reread: Reread, at: int)
    | LookedUp(summary: Summary, seenAt: int)
    | ReadMember(member: (string, string))
    | Proved(proofKind: Option<Kind>, proofId: string)

  function After(r: Option<Row>, h: Happening): Option<Row> {
    match h
    case Presented(kind, id, iat) => AfterToken(r, kind, id, iat)
    case Delivered(payload, reread, at) => ApplyPayload(r, payload, reread, at)
    case LookedUp(summary, seenAt) => Some(ApplySummary(r, summary, seenAt))
    case ReadMember(member) => ApplyMember(r, member)
    case Proved(kind, id) => Some(AfterProof(r, kind, id))
  }

  function HoldingsAfter(h: Holdings, uuid: Uuid, r: Option<Row>, happening: Happening): Holdings {
    match happening
    case Delivered(payload, reread, at) => HoldingsAfterEvent(h, uuid, r, payload, reread, at)
    case LookedUp(summary, seenAt) => HoldingsAfterSummary(h, uuid, r, summary, seenAt)
    case _ => h
  }

  function CleanupOf(r: Option<Row>, h: Happening): Cleanup {
    match h
    case Delivered(payload, _, at) => CleanupFor(r, payload, at)
    case LookedUp(summary, _) => if summary.deleted then End else Keep
    case _ => Keep
  }

  function AfterAll(r: Option<Row>, hs: seq<Happening>): Option<Row>
    decreases |hs|
  {
    if hs == [] then r else AfterAll(After(r, hs[0]), hs[1..])
  }

  /** Once deleted, an account stays deleted and every later token is refused, through any sequence of happenings. */
  lemma {:induction false} DeletedIsAbsorbing(r: Option<Row>, hs: seq<Happening>, kind: Kind, id: string, iat: int)
    requires r.Some? && r.value.status == Deleted
    ensures var end := AfterAll(r, hs);
            end.Some? && end.value.status == Deleted && PresentToken(end, kind, id, iat) == Err(AccountWasDeleted)
    decreases |hs|
  {
    if hs != [] {
      DeletedIsAbsorbing(After(r, hs[0]), hs[1..], kind, id, iat);
    }
  }

  /** Reminders of others, and of everyone their ownership, stay. */
  ghost predicate SameOfOthers(h: Holdings, n: Holdings, uuid: Uuid) {
    && n.reminders.Keys == h.reminders.Keys
    && (forall x | x in h.reminders :: n.reminders[x].owner == h.reminders[x].owner)
    && (forall x | x in h.reminders && h.reminders[x].owner != uuid :: n.reminders[x] == h.reminders[x])
    && (forall s: (Uuid, nat) | s.0 != uuid :: s in n.subscriptions <==> s in h.subscriptions)
  }

  /** Whatever takes an account's access away ends what is still to be delivered for it, and nothing else. */
  lemma {:induction false} LosingAccessEndsDeliveries(h: Holdings, uuid: Uuid, r: Option<Row>, happening: Happening)
    requires r.Some? ==> r.value.status == Active
    requires After(r, happening).Some? && After(r, happening).value.status == AccessRemoved
    ensures var n := HoldingsAfter(h, uuid, r, happening);
      && SameOfOthers(h, n, uuid) && n.subscriptions == h.subscriptions && n.delegations == h.delegations
      && (forall x | x in h.reminders && h.reminders[x].owner == uuid ::
            n.reminders[x].undelivered == 0 && n.reminders[x].archived == h.reminders[x].archived
            && n.reminders[x].completed == h.reminders[x].completed)
  {}

  /** What is left of its holdings once an account has been deleted. */
  ghost predicate Ended(h: Holdings, n: Holdings, uuid: Uuid) {
    && SameOfOthers(h, n, uuid) && (forall s | s in n.subscriptions :: s.0 != uuid)
    && (forall x | x in h.reminders && h.reminders[x].owner == uuid ::
          n.reminders[x].undelivered == 0 && n.reminders[x].completed == h.reminders[x].completed
          && (n.reminders[x].archived <==> h.reminders[x].archived || !h.reminders[x].completed))
    && (forall g | g in n.delegations.grants :: uuid !in {g.0, g.1})
    && (forall a | a in n.delegations.allowances :: uuid !in {a.0, a.1})
  }

  /** Whatever deletes an account ends its deliveries, archives what was not completed and ends its subscriptions. */
  lemma {:induction false} DeletionEndsEverything(h: Holdings, uuid: Uuid, r: Option<Row>, happening: Happening)
    requires r.Some? ==> r.value.status != Deleted
    requires After(r, happening).Some? && After(r, happening).value.status == Deleted
    ensures Ended(h, HoldingsAfter(h, uuid, r, happening), uuid)
  {
    CleaningEnds(h, Written(h, uuid, r, After(r, happening)), uuid);
  }

  lemma {:induction false} CleaningEnds(h: Holdings, written: Holdings, uuid: Uuid)
    requires written.reminders == h.reminders && written.subscriptions == h.subscriptions
    ensures Ended(h, Cleaned(written, uuid, End), uuid)
  {}

  /** Nothing that leaves an account active, or suspended as it was, touches its reminders or subscriptions. */
  lemma {:induction false} NothingElseEnds(h: Holdings, uuid: Uuid, r: Option<Row>, happening: Happening)
    requires After(r, happening).Some? ==>
      var status := After(r, happening).value.status;
      status == Active || (status == AccessRemoved && r.Some? && r.value.status == AccessRemoved)
    ensures var n := HoldingsAfter(h, uuid, r, happening);
      n.reminders == h.reminders && n.subscriptions == h.subscriptions
  {}

  /** Only Silicons have a custodian: no happening runs into the table's constraint. */
  predicate CustodianIsSilicons(r: Option<Row>) { CustodianUuid(r).Some? ==> r.value.kind == Some(Silicon) }

  lemma HappeningKeepsCustodianSilicons(r: Option<Row>, h: Happening)
    requires CustodianIsSilicons(r)
    ensures CustodianIsSilicons(After(r, h))
  {}

  // ---- what a row shows afterwards ----

  /** The first token, or the first proof, registers the account as it names itself. */
  lemma FirstSightRegisters(kind: Kind, id: string, iat: int, proofKind: Option<Kind>)
    ensures PresentToken(None, kind, id, iat)
      == Ok((Row(Some(kind), id, "", "", None, Active, 0, None, None, None, Some(iat * 1_000_000), true), false))
    ensures AfterProof(None, proofKind, id) == Row(proofKind, id, "", "", None, Active, 0, None, None, None, None, true)
  {}

  /** A re-read that succeeds settles what the account is called, whatever the event said. */
  lemma {:induction false} RereadIsShown(r: Option<Row>, p: Payload, reread: Reread, at: int, now: int)
    requires r.Some? ==> r.value.status != Deleted
    requires p.AccountIdChanged? || p.AccountUpdated? || p.CustodianChanged?
    requires reread.summary.Some? && !reread.summary.value.deleted && reread.member.Some?
    ensures var (summary, member) := (reread.summary.value, reread.member.value);
      var after := StoreReread(ApplyPayload(r, p, reread, at), reread, now);
      && after.Some? && after.value.kind == Some(summary.kind) && after.value.publicId == summary.id
      && after.value.custodian == (if summary.kind == Silicon then summary.custodian else None)
      && after.value.displayName == member.0 && after.value.pfpUrl == member.1
      && after.value.idObservedAt == Some(now) && after.value.custodianObservedAt == Some(now)
      && after.value.status == (if r.Some? then r.value.status else Active)
  {}

  /** A late event undoes nothing newer: what it writes, nothing as new had been seen of. */
  lemma {:induction false} LateEventsUndoNothing(row: Row, p: Payload, reread: Reread, at: int)
    requires !p.AccountDeleted?
    ensures var after := ApplyPayload(Some(row), p, reread, at);
      && after.Some?
      && (row.idObservedAt.Some? && at <= row.idObservedAt.value ==> after.value.publicId == row.publicId)
      && (row.custodianObservedAt.Some? && at <= row.custodianObservedAt.value ==>
            after.value.custodian == row.custodian && after.value.custodianObservedAt == row.custodianObservedAt)
      && (p.AccountUpdated? && p.account.Some? && p.account.value.version <= row.profileVersion ==>
            after.value.displayName == row.displayName && after.value.pfpUrl == row.pfpUrl
            && after.value.custodian == row.custodian && after.value.profileVersion == row.profileVersion)
  {}

  /** After a lookup at `now`, no event that happened by then changes the id or the custodian any more. */
  lemma {:induction false} LookupOutranksOlderEvents(r: Option<Row>, s: Summary, now: int, p: Payload, reread: Reread,
                                                     at: int)
    requires r.Some? ==> r.value.status != Deleted
    requires !s.deleted && !p.AccountDeleted? && at <= now
    ensures var row := ApplySummary(r, s, now);
      var after := ApplyPayload(Some(row), p, reread, at);
      after.Some? && after.value.publicId == s.id
      && after.value.custodian == if s.kind == Silicon then s.custodian else None
  {
    LateEventsUndoNothing(ApplySummary(r, s, now), p, reread, at);
  }

  /** An event that names no retired account makes no retired account anyone's custodian. */
  lemma {:induction false} RetiredStayOut(uuid: Uuid, r: Option<Row>, p: Payload, reread: Reread, at: int,
                                          retired: set<Uuid>)
    requires Named(uuid, p) * retired == {} && (CustodianUuid(r).Some? ==> CustodianUuid(r).value !in retired)
    ensures var keeper := CustodianUuid(ApplyPayload(r, p, reread, at)); keeper.Some? ==> keeper.value !in retired
    ensures (!p.Unused? ==> uuid !in retired)
      && (p.AccountUpdated? && p.account.Some? ==> p.account.value.uuid !in retired)
  {
    forall x | x in Named(uuid, p) ensures x !in retired {
      assert x !in Named(uuid, p) * retired;
    }
  }
}
