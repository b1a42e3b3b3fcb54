// Delegation across custodian changes and deletions: what every run of tokens, events, lookups and sharing keeps.
module CustodianFence {
  import opened Wrappers
  import opened Delegation
  import opened AccountState

  /** The two tables of delegations: viewer grants, and the allow-lists of Silicons. */
  datatype Table = Grants | Allowances

  /**
   * What is stored, how far requests have come that share something, and which reminders the worker has picked.
   * Requests first know who they may act for, as (owner, maker), then also the other account. Any number may be under
   * way at once.
   */
  datatype World = World(rows: map<Uuid, Row>, holdings: Holdings,
                         authorized: set<(Uuid, Uuid)>, resolved: set<(Uuid, Uuid, Uuid)>, picked: set<nat>)

  /**
   * One database step each. A request to share is authorized, resolves the other account and then inserts its row; a
   * due reminder is picked, its owner being active, and then fires.
   */
  datatype Step =
    | Happens(uuid: Uuid, happening: Happening)
    | Authorize(owner: Uuid, maker: Uuid)
    | Resolve(owner: Uuid, maker: Uuid, other: Uuid)
    | Insert(table: Table, owner: Uuid, other: Uuid, maker: Uuid)
    | Revoke(owner: Uuid, viewer: Uuid)
    | Disallow(silicon: Uuid, allowed: Uuid, circle: set<Uuid>)
    | Create(id: nat, owner: Uuid)
    | Pick(id: nat)
    | Fire(id: nat, last: bool)
    | Settle(id: nat)
    | Subscribe(owner: Uuid, subscription: nat)

  function Keepers(rows: map<Uuid, Row>): map<Uuid, Uuid> {
    map x | x in rows && rows[x].custodian.Some? :: rows[x].custodian.value.uuid
  }

  function RowOf(w: World, uuid: Uuid): Option<Row> { if uuid in w.rows then Some(w.rows[uuid]) else None }

  function RowsOf(d: Delegations, table: Table): map<(Uuid, Uuid), Uuid> {
    match table
    case Grants => d.grants
    case Allowances => d.allowances
  }

  /** `ON CONFLICT DO NOTHING`. */
  function WithRow(d: Delegations, table: Table, pair: (Uuid, Uuid), maker: Uuid): Delegations {
    if pair in RowsOf(d, table) then d else
      match table
      case Grants => d.(grants := d.grants[pair := maker])
      case Allowances => d.(allowances := d.allowances[pair := maker])
  }

  /** Taking an account off an allow-list ends the grants this had made possible. */
  predicate EndedByDisallow(g: (Uuid, Uuid), maker: Uuid, silicon: Uuid, allowed: Uuid, circle: set<Uuid>) {
    g.1 == silicon && g.0 !in circle && (g.0 == allowed || maker == allowed)
  }

  function Disallowed(d: Delegations, silicon: Uuid, allowed: Uuid, circle: set<Uuid>): Delegations {
    Delegations(map g | g in d.grants && !EndedByDisallow(g, d.grants[g], silicon, allowed, circle) :: d.grants[g],
                d.allowances - {(silicon, allowed)})
  }

  predicate IsDeleted(w: World, uuid: Uuid) { uuid in w.rows && w.rows[uuid].status == Deleted }

  predicate IsActive(w: World, uuid: Uuid) { uuid in w.rows && w.rows[uuid].status == Active }

  predicate Usable(w: World, uuid: Uuid) { uuid in w.rows && w.rows[uuid].status != Deleted && w.rows[uuid].kind.Some? }

  /** A Silicon acts for itself, a Carbon for the active accounts in its care. */
  predicate MayAuthorize(w: World, owner: Uuid, maker: Uuid) {
    && Usable(w, maker) && Usable(w, owner)
    && if owner == maker then w.rows[maker].kind == Some(Silicon)
       else w.rows[maker].kind == Some(Carbon) && IsActive(w, owner) && CustodianUuid(RowOf(w, owner)) == Some(maker)
  }

  predicate Live(r: Reminder) { !r.archived && !r.completed }

  /** When the code takes a step: an insert follows its request's checks, but does not repeat them. */
  predicate Enabled(w: World, s: Step) {
    match s
    case Authorize(owner, maker) => MayAuthorize(w, owner, maker)
    case Resolve(owner, maker, other) =>
      (owner, maker) in w.authorized && Usable(w, other) && other != owner && other != maker
    case Insert(_, owner, other, maker) => (owner, other, maker) in w.resolved
    case Create(id, owner) => id !in w.holdings.reminders && IsActive(w, owner)
    case Pick(id) =>
      id in w.holdings.reminders && Live(w.holdings.reminders[id]) && IsActive(w, w.holdings.reminders[id].owner)
    case Fire(id, _) => id in w.picked && id in w.holdings.reminders && Live(w.holdings.reminders[id])
    case Settle(id) => id in w.holdings.reminders && w.holdings.reminders[id].undelivered > 0
    case Subscribe(owner, _) => IsActive(w, owner)
    case _ => true
  }

  function WithDelegations(w: World, d: Delegations): World { w.(holdings := w.holdings.(delegations := d)) }

  function WithReminder(w: World, id: nat, r: Reminder): World {
    w.(holdings := w.holdings.(reminders := w.holdings.reminders[id := r]))
  }

  function Next(w: World, s: Step): World
    requires Enabled(w, s)
  {
    var (h, d) := (w.holdings, w.holdings.delegations);
    match s
    case Happens(uuid, happening) =>
      var row := After(RowOf(w, uuid), happening);
      w.(rows := if row.Some? then w.rows[uuid := row.value] else w.rows,
         holdings := HoldingsAfter(h, uuid, RowOf(w, uuid), happening))
    case Authorize(owner, maker) => w.(authorized := w.authorized + {(owner, maker)})
    case Resolve(owner, maker, other) => w.(resolved := w.resolved + {(owner, other, maker)})
    case Insert(table, owner, other, maker) => WithDelegations(w, WithRow(d, table, (owner, other), maker))
    case Revoke(owner, viewer) => WithDelegations(w, d.(grants := d.grants - {(owner, viewer)}))
    case Disallow(silicon, allowed, circle) => WithDelegations(w, Disallowed(d, silicon, allowed, circle))
    case Create(id, owner) => WithReminder(w, id, Reminder(owner, false, false, 0))
    case Pick(id) => w.(picked := w.picked + {id})
    case Fire(id, last) =>
      var r := h.reminders[id];
      WithReminder(w, id, r.(undelivered := r.undelivered + 1, completed := last)).(picked := w.picked - {id})
    case Settle(id) =>
      var r := h.reminders[id];
      WithReminder(w, id, r.(undelivered := r.undelivered - 1))
    case Subscribe(owner, subscription) =>
      w.(holdings := h.(subscriptions := h.subscriptions + {(owner, subscription)}))
  }

  predicate IsRun(w: World, steps: seq<Step>)
    decreases |steps|
  {
    steps == [] || (Enabled(w, steps[0]) && IsRun(Next(w, steps[0]), steps[1..]))
  }

  function Run(w: World, steps: seq<Step>): World
    requires IsRun(w, steps)
    decreases |steps|
  {
    if steps == [] then w else Run(Next(w, steps[0]), steps[1..])
  }

  // ---- what is kept ----

  /** Nothing of the account is left to fire, to be sent or to be read. */
  ghost predicate HoldsNothing(h: Holdings, uuid: Uuid) {
    && (forall x | x in h.reminders && h.reminders[x].owner == uuid ::
          h.reminders[x].undelivered == 0 && (h.reminders[x].archived || h.reminders[x].completed))
    && (forall n :: (uuid, n) !in h.subscriptions)
    && (forall other :: (uuid, other) !in h.delegations.grants && (other, uuid) !in h.delegations.grants
                        && (uuid, other) !in h.delegations.allowances && (other, uuid) !in h.delegations.allowances)
  }

  /** Delegations are made by present keepers, and deleted accounts hold nothing. */
  ghost predicate Orderly(w: World) {
    && MadeByKeepers(w.holdings.delegations, Keepers(w.rows))
    && (forall uuid | uuid in w.rows && w.rows[uuid].status == Deleted :: HoldsNothing(w.holdings, uuid))
  }

  lemma KeepersAfter(rows: map<Uuid, Row>, uuid: Uuid, row: Row)
    ensures Keepers(rows[uuid := row]) == WithKeeper(Keepers(rows), uuid, CustodianUuid(Some(row)))
  {}

  lemma CleaningKeepsMade(h: Holdings, uuid: Uuid, cleanup: Cleanup, keepers: map<Uuid, Uuid>)
    requires MadeByKeepers(h.delegations, keepers)
    ensures MadeByKeepers(Cleaned(h, uuid, cleanup).delegations, keepers)
  {}

  /**
   * Whatever happens writes the row, with the trigger on its custodian, and cleans up; deleting cleans up everything.
   */
  lemma {:induction false} HappeningShape(h: Holdings, uuid: Uuid, r: Option<Row>, happening: Happening)
    ensures var after := After(r, happening);
      && HoldingsAfter(h, uuid, r, happening) == Cleaned(Written(h, uuid, r, after), uuid, CleanupOf(r, happening))
      && (CleanupOf(r, happening) == End ==> after.Some? && after.value.status == Deleted)
      && (after.Some? && after.value.status == Deleted ==>
            CleanupOf(r, happening) == End || (r.Some? && r.value.status == Deleted))
      && (r.Some? ==> after.Some?)
  {}

  lemma {:induction false} HappeningKeepsMade(w: World, uuid: Uuid, happening: Happening)
    requires MadeByKeepers(w.holdings.delegations, Keepers(w.rows))
    ensures var n := Next(w, Happens(uuid, happening)); MadeByKeepers(n.holdings.delegations, Keepers(n.rows))
  {
    var r := RowOf(w, uuid);
    var row := After(r, happening);
    var cleanup := CleanupOf(r, happening);
    HappeningShape(w.holdings, uuid, r, happening);
    if row.Some? {
      KeepersAfter(w.rows, uuid, row.value);
      FenceKeepsMade(w.holdings.delegations, Keepers(w.rows), uuid, CustodianUuid(row));
      CleaningKeepsMade(Written(w.holdings, uuid, r, row), uuid, cleanup, Keepers(w.rows[uuid := row.value]));
    } else {
      CleaningKeepsMade(Written(w.holdings, uuid, r, row), uuid, cleanup, Keepers(w.rows));
    }
  }

  lemma LessIsNothing(h: Holdings, uuid: Uuid, r: Option<Row>, after: Option<Row>, cleanup: Cleanup, other: Uuid)
    requires HoldsNothing(h, other) || (other == uuid && cleanup == End)
    ensures HoldsNothing(Cleaned(Written(h, uuid, r, after), uuid, cleanup), other)
  {}

  lemma HappeningKeepsOrderly(w: World, uuid: Uuid, happening: Happening)
    requires Orderly(w)
    ensures Orderly(Next(w, Happens(uuid, happening)))
  {
    var r := RowOf(w, uuid);
    var n := Next(w, Happens(uuid, happening));
    HappeningKeepsMade(w, uuid, happening);
    HappeningShape(w.holdings, uuid, r, happening);
    forall other | other in n.rows && n.rows[other].status == Deleted ensures HoldsNothing(n.holdings, other) {
      LessIsNothing(w.holdings, uuid, r, After(r, happening), CleanupOf(r, happening), other);
    }
  }

  // ---- exactly when it is kept: inserts do not repeat the checks of their requests ----

  /** An insert that adds a row finds the maker still in charge and neither account deleted. */
  predicate Current(w: World, s: Step) {
    s.Insert? && (s.owner, s.other) !in RowsOf(w.holdings.delegations, s.table) ==>
      MayDelegate(Keepers(w.rows), s.owner, s.maker) && !IsDeleted(w, s.owner) && !IsDeleted(w, s.other)
  }

  lemma {:induction false} CurrentInsertKeepsOrderly(w: World, s: Step)
    requires Orderly(w) && Enabled(w, s) && s.Insert? && Current(w, s)
    ensures Orderly(Next(w, s))
  {
    var n := Next(w, s);
    forall uuid | uuid in n.rows && n.rows[uuid].status == Deleted ensures HoldsNothing(n.holdings, uuid) {
      assert HoldsNothing(w.holdings, uuid);
    }
  }

  lemma OrderlyInsertIsCurrent(w: World, s: Step)
    requires Enabled(w, s) && s.Insert? && Orderly(Next(w, s))
    ensures Current(w, s)
  {
    var n := Next(w, s);
    if (s.owner, s.other) !in RowsOf(w.holdings.delegations, s.table) {
      assert (s.owner, s.other) in RowsOf(n.holdings.delegations, s.table);
      assert IsDeleted(w, s.owner) ==> HoldsNothing(n.holdings, s.owner);
      assert IsDeleted(w, s.other) ==> HoldsNothing(n.holdings, s.other);
    }
  }

  lemma {:induction false} OtherStepsKeepOrderly(w: World, s: Step)
    requires Orderly(w) && Enabled(w, s) && !s.Insert? && !s.Happens?
    ensures Orderly(Next(w, s))
  {
    var n := Next(w, s);
    forall uuid | uuid in n.rows && n.rows[uuid].status == Deleted ensures HoldsNothing(n.holdings, uuid) {
      assert HoldsNothing(w.holdings, uuid);
    }
  }

  lemma StepKeepsOrderlyIff(w: World, s: Step)
    requires Orderly(w) && Enabled(w, s)
    ensures Orderly(Next(w, s)) <==> Current(w, s)
  {
    match s
    case Insert(_, _, _, _) =>
      if Current(w, s) { CurrentInsertKeepsOrderly(w, s); }
      if Orderly(Next(w, s)) { OrderlyInsertIsCurrent(w, s); }
    case Happens(uuid, happening) => HappeningKeepsOrderly(w, uuid, happening);
    case _ => OtherStepsKeepOrderly(w, s);
  }

  ghost predicate OrderlyThroughout(w: World, steps: seq<Step>)
    requires IsRun(w, steps)
    decreases |steps|
  {
    Orderly(w) && (steps != [] ==> OrderlyThroughout(Next(w, steps[0]), steps[1..]))
  }

  predicate AlwaysCurrent(w: World, steps: seq<Step>)
    requires IsRun(w, steps)
    decreases |steps|
  {
    steps == [] || (Current(w, steps[0]) && AlwaysCurrent(Next(w, steps[0]), steps[1..]))
  }

  /**
   * Over every run, however custodians change and whatever comes between an event and its re-read or a request's checks
   * and its insert: at all times each active grant and allowance of an account was made by that account or its present
   * custodian, and deleted accounts hold nothing, if and only if every insert that adds a row is current.
   */
  lemma {:induction false} RunOrderlyIff(w: World, steps: seq<Step>)
    requires Orderly(w) && IsRun(w, steps)
    ensures OrderlyThroughout(w, steps) <==> AlwaysCurrent(w, steps)
    decreases |steps|
  {
    if steps != [] {
      StepKeepsOrderlyIff(w, steps[0]);
      if Orderly(Next(w, steps[0])) { RunOrderlyIff(Next(w, steps[0]), steps[1..]); }
    }
  }

  predicate Undisturbed(steps: seq<Step>, uuid: Uuid) { forall s | s in steps :: !(s.Happens? && s.uuid == uuid) }

  lemma {:induction false} UndisturbedStays(w: World, steps: seq<Step>, uuid: Uuid)
    requires IsRun(w, steps) && Undisturbed(steps, uuid)
    ensures RowOf(Run(w, steps), uuid) == RowOf(w, uuid)
    decreases |steps|
  {
    if steps != [] {
      assert steps[0] in steps && forall s | s in steps[1..] :: s in steps;
      UndisturbedStays(Next(w, steps[0]), steps[1..], uuid);
    }
  }

  /**
   * A request is current if nothing happens to the owner after it is authorized, or to the other account once that is
   * found.
   */
  lemma UndisturbedIsCurrent(w: World, first: seq<Step>, second: seq<Step>, insert: Step)
    requires insert.Insert? && MayAuthorize(w, insert.owner, insert.maker) && IsRun(w, first)
    requires Usable(Run(w, first), insert.other) && IsRun(Run(w, first), second)
    requires Undisturbed(first, insert.owner) && Undisturbed(second, insert.owner) && Undisturbed(second, insert.other)
    ensures Current(Run(Run(w, first), second), insert)
  {
    UndisturbedStays(w, first, insert.owner);
    UndisturbedStays(Run(w, first), second, insert.owner);
    UndisturbedStays(Run(w, first), second, insert.other);
  }

  // ---- suspended accounts ----

  /** Nothing of the account is waiting to be delivered. */
  ghost predicate Silent(h: Holdings, uuid: Uuid) {
    forall x | x in h.reminders && h.reminders[x].owner == uuid :: h.reminders[x].undelivered == 0
  }

  predicate FiresFor(w: World, s: Step, uuid: Uuid) {
    s.Fire? && s.id in w.holdings.reminders && w.holdings.reminders[s.id].owner == uuid
  }

  predicate NothingFires(w: World, steps: seq<Step>, uuid: Uuid)
    requires IsRun(w, steps)
    decreases |steps|
  {
    steps == [] || (!FiresFor(w, steps[0], uuid) && NothingFires(Next(w, steps[0]), steps[1..], uuid))
  }

  lemma {:induction false} StepKeepsSilent(w: World, s: Step, uuid: Uuid)
    requires Silent(w.holdings, uuid) && Enabled(w, s) && !FiresFor(w, s, uuid)
    ensures Silent(Next(w, s).holdings, uuid)
  {
    if s.Happens? { HappeningShape(w.holdings, s.uuid, RowOf(w, s.uuid), s.happening); }
  }

  ghost predicate SilentThroughout(w: World, steps: seq<Step>, uuid: Uuid)
    requires IsRun(w, steps)
    decreases |steps|
  {
    Silent(w.holdings, uuid) && (steps != [] ==> SilentThroughout(Next(w, steps[0]), steps[1..], uuid))
  }

  /** Something to deliver comes of reminders that fire, and of nothing else. */
  lemma {:induction false} SilentThroughoutIff(w: World, steps: seq<Step>, uuid: Uuid)
    requires Silent(w.holdings, uuid) && IsRun(w, steps)
    ensures SilentThroughout(w, steps, uuid) <==> NothingFires(w, steps, uuid)
    ensures SilentThroughout(w, steps, uuid) ==> Silent(Run(w, steps).holdings, uuid)
    decreases |steps|
  {
    if steps != [] {
      var n := Next(w, steps[0]);
      if FiresFor(w, steps[0], uuid) {
        assert n.holdings.reminders[steps[0].id].undelivered > 0;
      } else {
        StepKeepsSilent(w, steps[0], uuid);
        SilentThroughoutIff(n, steps[1..], uuid);
      }
    }
  }

  /** The worker has picked none of the account's reminders. */
  ghost predicate Unpicked(w: World, uuid: Uuid) {
    forall id | id in w.picked :: id in w.holdings.reminders && w.holdings.reminders[id].owner != uuid
  }

  /** Through the whole run the account is not active: it does not sign in again. */
  predicate StaysOut(w: World, steps: seq<Step>, uuid: Uuid)
    requires IsRun(w, steps)
    decreases |steps|
  {
    !IsActive(w, uuid) && (steps != [] ==> StaysOut(Next(w, steps[0]), steps[1..], uuid))
  }

  lemma {:induction false} StepKeepsUnpicked(w: World, s: Step, uuid: Uuid)
    requires Unpicked(w, uuid) && Enabled(w, s) && (s.Pick? ==> !IsActive(w, uuid))
    ensures Unpicked(Next(w, s), uuid) && !FiresFor(w, s, uuid)
  {
    if s.Happens? { HappeningShape(w.holdings, s.uuid, RowOf(w, s.uuid), s.happening); }
  }

  lemma {:induction false} OutNeverFires(w: World, steps: seq<Step>, uuid: Uuid)
    requires Unpicked(w, uuid) && IsRun(w, steps) && StaysOut(w, steps, uuid)
    ensures NothingFires(w, steps, uuid)
    decreases |steps|
  {
    if steps != [] {
      StepKeepsUnpicked(w, steps[0], uuid);
      OutNeverFires(Next(w, steps[0]), steps[1..], uuid);
    }
  }

  /**
   * An account that loses its access while none of its reminders is picked has nothing to deliver until it signs in
   * again, whatever else happens.
   */
  lemma {:induction false} SuspendedStaysSilent(w: World, uuid: Uuid, happening: Happening, steps: seq<Step>)
    requires (uuid in w.rows ==> IsActive(w, uuid)) && Unpicked(w, uuid)
    requires var n := Next(w, Happens(uuid, happening));
      uuid in n.rows && n.rows[uuid].status == AccessRemoved && IsRun(n, steps) && StaysOut(n, steps, uuid)
    ensures SilentThroughout(Next(w, Happens(uuid, happening)), steps, uuid)
  {
    var n := Next(w, Happens(uuid, happening));
    LosingAccessEndsDeliveries(w.holdings, uuid, RowOf(w, uuid), happening);
    StepKeepsUnpicked(w, Happens(uuid, happening), uuid);
    OutNeverFires(n, steps, uuid);
    SilentThroughoutIff(n, steps, uuid);
  }

  /** One that is picked when its owner loses access fires after all, and the delivery stays pending. */
  lemma {:induction false} PickedFiresAfterSuspension(w: World, id: nat, last: bool, at: int)
    requires id in w.holdings.reminders && Live(w.holdings.reminders[id]) && IsActive(w, w.holdings.reminders[id].owner)
    requires var owner := w.rows[w.holdings.reminders[id].owner];
      owner.lastTokenIat.None? || owner.lastTokenIat.value <= at
    ensures var owner := w.holdings.reminders[id].owner;
      var removed := Happens(owner, Delivered(MembershipAccessRemoved, Reread(None, None), at));
      var steps := [Pick(id)] + ([removed] + ([Fire(id, last)] + []));
      && IsRun(w, steps)
      && owner in Run(w, steps).rows && Run(w, steps).rows[owner].status == AccessRemoved
      && id in Run(w, steps).holdings.reminders && Run(w, steps).holdings.reminders[id].owner == owner
      && Run(w, steps).holdings.reminders[id].undelivered == 1
  {
    var owner := w.holdings.reminders[id].owner;
    var removed := Happens(owner, Delivered(MembershipAccessRemoved, Reread(None, None), at));
    var picked := Next(w, Pick(id));
    var out := Next(picked, removed);
    LosingAccessEndsDeliveries(picked.holdings, owner, RowOf(picked, owner), removed.happening);
    RunFrom(out, Fire(id, last), []);
    RunFrom(picked, removed, [Fire(id, last)] + []);
    RunFrom(w, Pick(id), [removed] + ([Fire(id, last)] + []));
  }

  // ---- what ends a delegation, a stray one included ----

  /** Someone takes the delegation back. */
  predicate Withdraws(s: Step, table: Table, pair: (Uuid, Uuid), maker: Uuid) {
    match s
    case Revoke(owner, viewer) => table == Grants && pair == (owner, viewer)
    case Disallow(silicon, allowed, circle) =>
      if table == Allowances then pair == (silicon, allowed) else EndedByDisallow(pair, maker, silicon, allowed, circle)
    case _ => false
  }

  /** The custodian about to be replaced is party to the delegation. */
  predicate KeptByParty(w: World, pair: (Uuid, Uuid), maker: Uuid) {
    CustodianUuid(RowOf(w, pair.0)) in {Some(pair.1), Some(maker)}
  }

  /** What happens deletes an account of the delegation. */
  predicate Deletes(w: World, s: Step, pair: (Uuid, Uuid)) {
    s.Happens? && s.uuid in {pair.0, pair.1} && CleanupOf(RowOf(w, s.uuid), s.happening) == End
  }

  /** What happens replaces the custodian of the account the delegation is about. */
  predicate Replaces(w: World, s: Step, pair: (Uuid, Uuid)) {
    s.Happens? && s.uuid == pair.0 &&
    var before := RowOf(w, s.uuid);
    CustodianUuid(before).Some? && CustodianUuid(After(before, s.happening)) != CustodianUuid(before)
  }

  /** A step ends a delegation if and only if it withdraws it, deletes an account of it or replaces a party to it. */
  lemma {:induction false} DelegationEndsIff(w: World, s: Step, table: Table, pair: (Uuid, Uuid))
    requires Enabled(w, s) && pair in RowsOf(w.holdings.delegations, table)
    ensures var (before, after) :=
      (RowsOf(w.holdings.delegations, table), RowsOf(Next(w, s).holdings.delegations, table));
      && (pair !in after <==>
            || Withdraws(s, table, pair, before[pair]) || Deletes(w, s, pair)
            || (Replaces(w, s, pair) && KeptByParty(w, pair, before[pair])))
      && (pair in after ==> after[pair] == before[pair])
  {
    if s.Happens? { HappeningShape(w.holdings, s.uuid, RowOf(w, s.uuid), s.happening); }
  }

  /**
   * A delegation ends only if it is withdrawn, an account of it is deleted, or the custodian replaced is party to it.
   */
  lemma {:induction false} DelegationStays(w: World, s: Step, table: Table, pair: (Uuid, Uuid))
    requires Enabled(w, s) && pair in RowsOf(w.holdings.delegations, table)
    requires var (n, maker) := (Next(w, s), RowsOf(w.holdings.delegations, table)[pair]);
      !Withdraws(s, table, pair, maker) && !KeptByParty(w, pair, maker) && !IsDeleted(n, pair.0)
        && !IsDeleted(n, pair.1)
    ensures var after := RowsOf(Next(w, s).holdings.delegations, table);
      pair in after && after[pair] == RowsOf(w.holdings.delegations, table)[pair]
  {
    DelegationEndsIff(w, s, table, pair);
  }

  predicate LeftAlone(w: World, steps: seq<Step>, table: Table, pair: (Uuid, Uuid), maker: Uuid)
    requires IsRun(w, steps)
    decreases |steps|
  {
    steps == [] ||
    (var n := Next(w, steps[0]);
     && !Withdraws(steps[0], table, pair, maker) && !KeptByParty(w, pair, maker)
     && !IsDeleted(n, pair.0) && !IsDeleted(n, pair.1) && LeftAlone(n, steps[1..], table, pair, maker))
  }

  /** So a delegation made by someone else than account and custodian outlives any number of other custodians. */
  lemma {:induction false} StrayDelegationStays(w: World, steps: seq<Step>, table: Table, pair: (Uuid, Uuid))
    requires IsRun(w, steps) && pair in RowsOf(w.holdings.delegations, table)
    requires LeftAlone(w, steps, table, pair, RowsOf(w.holdings.delegations, table)[pair])
    ensures var after := RowsOf(Run(w, steps).holdings.delegations, table);
      pair in after && after[pair] == RowsOf(w.holdings.delegations, table)[pair]
    decreases |steps|
  {
    if steps != [] {
      DelegationStays(w, steps[0], table, pair);
      StrayDelegationStays(Next(w, steps[0]), steps[1..], table, pair);
    }
  }

  /**
   * Whatever changes a custodian leaves the previous one without access of its own and without any delegation it made.
   */
  lemma CustodianChangeEndsDelegation(w: World, uuid: Uuid, happening: Happening, previous: Uuid)
    requires CustodianUuid(RowOf(w, uuid)) == Some(previous)
    requires CustodianUuid(After(RowOf(w, uuid), happening)) != Some(previous)
    ensures var n := Next(w, Happens(uuid, happening)).holdings.delegations;
      && (uuid, previous) !in n.grants && (uuid, previous) !in n.allowances
      && (forall g | g in n.grants && g.0 == uuid :: n.grants[g] != previous)
      && (forall a | a in n.allowances && a.0 == uuid :: n.allowances[a] != previous)
  {
    var r := RowOf(w, uuid);
    HappeningShape(w.holdings, uuid, r, happening);
    PreviousKeeperStops(w.holdings.delegations, uuid, previous, CustodianUuid(After(r, happening)));
  }

  /** A Silicon handed from one custodian to the next: what the first allowed and was granted ends with it. */
  lemma {:induction false} HandedOn(row: Row)
    requires row.kind == Some(Silicon) && row.custodian == Some(Custodian("old", "c:old"))
      && row.custodianObservedAt == None
    ensures var d := Delegations(map[("s", "old") := "old", ("s", "friend") := "s"], map[("s", "old") := "s"]);
      var n := Next(World(map["s" := row], Holdings(map[], {}, d), {}, {}, {}),
                    Happens("s", Delivered(CustodianChanged(Some(Custodian("new", "c:new"))), Reread(None, None), 7)));
      CustodianUuid(RowOf(n, "s")) == Some("new")
      && n.holdings.delegations == Delegations(map[("s", "friend") := "s"], map[])
  {
    assert "old" != "new" && |"friend"| == 6;
  }

  // ---- a request overtaken by a change ----

  lemma RunFrom(w: World, s: Step, rest: seq<Step>)
    requires Enabled(w, s) && IsRun(Next(w, s), rest)
    ensures IsRun(w, [s] + rest) && Run(w, [s] + rest) == Run(Next(w, s), rest)
  {
    assert ([s] + rest)[1..] == rest;
  }

  function Overtaken(insert: Step, happening: Happening): seq<Step>
    requires insert.Insert?
  {
    [Authorize(insert.owner, insert.maker)] + ([Happens(insert.owner, happening)] +
    ([Resolve(insert.owner, insert.maker, insert.other)] + ([insert] + [])))
  }

  predicate Overtakes(w: World, insert: Step, happening: Happening) {
    && insert.Insert? && MayAuthorize(w, insert.owner, insert.maker)
    && Usable(w, insert.other) && insert.other != insert.owner && insert.other != insert.maker
    && (insert.owner, insert.other) !in RowsOf(w.holdings.delegations, insert.table)
    && var after := After(RowOf(w, insert.owner), happening);
       after.value.status == Deleted || (insert.maker != insert.owner && CustodianUuid(after) != Some(insert.maker))
  }

  function AfterOvertaken(w: World, insert: Step, happening: Happening): World
    requires insert.Insert?
  {
    var n := Next(w, Happens(insert.owner, happening));
    WithDelegations(n, WithRow(n.holdings.delegations, insert.table, (insert.owner, insert.other), insert.maker))
      .(authorized := n.authorized + {(insert.owner, insert.maker)},
        resolved := n.resolved + {(insert.owner, insert.other, insert.maker)})
  }

  lemma {:induction false} OvertakenRun(w: World, insert: Step, happening: Happening)
    requires Overtakes(w, insert, happening)
    ensures IsRun(w, Overtaken(insert, happening))
    ensures Run(w, Overtaken(insert, happening)) == AfterOvertaken(w, insert, happening)
  {
    var w1 := Next(w, Authorize(insert.owner, insert.maker));
    var w2 := Next(w1, Happens(insert.owner, happening));
    assert RowOf(w2, insert.other) == RowOf(w, insert.other);
    var w3 := Next(w2, Resolve(insert.owner, insert.maker, insert.other));
    RunFrom(w3, insert, []);
    RunFrom(w2, Resolve(insert.owner, insert.maker, insert.other), [insert] + []);
    RunFrom(w1, Happens(insert.owner, happening),
            [Resolve(insert.owner, insert.maker, insert.other)] + ([insert] + []));
    RunFrom(w, Authorize(insert.owner, insert.maker),
            [Happens(insert.owner, happening)]
              + ([Resolve(insert.owner, insert.maker, insert.other)] + ([insert] + [])));
  }

  /** One request suffices: if between its checks and its insert the owner is deleted or handed on, order is lost. */
  lemma {:induction false} OvertakenInsertBreaksOrder(w: World, insert: Step, happening: Happening)
    requires Overtakes(w, insert, happening)
    ensures IsRun(w, Overtaken(insert, happening)) && !Orderly(Run(w, Overtaken(insert, happening)))
  {
    OvertakenRun(w, insert, happening);
    HappeningShape(w.holdings, insert.owner, RowOf(w, insert.owner), happening);
    var n := AfterOvertaken(w, insert, happening);
    assert (insert.owner, insert.other) in RowsOf(n.holdings.delegations, insert.table);
    assert RowsOf(n.holdings.delegations, insert.table)[(insert.owner, insert.other)] == insert.maker;
    assert RowOf(n, insert.owner) == After(RowOf(w, insert.owner), happening);
  }

  /**
   * The request's own lookup overtakes it: a Silicon asked for by its new id is looked up, and found in the care of
   * someone else. The former custodian's grant is made all the same, and outlives the next change of custodian.
   */
  lemma {:induction false} RenamedAndHandedOn(w: World, silicon: Uuid, maker: Uuid, viewer: Uuid, newId: string,
                                              next: Custodian, third: Custodian, at: int)
    requires var lookup := LookedUp(Summary(Silicon, newId, Some(next), false), at);
      Overtakes(w, Insert(Grants, silicon, viewer, maker), lookup) && maker != silicon && next.uuid !in {maker, viewer}
    ensures var lookup := LookedUp(Summary(Silicon, newId, Some(next), false), at);
      var steps := Overtaken(Insert(Grants, silicon, viewer, maker), lookup);
      IsRun(w, steps) &&
      var n := Run(w, steps);
      && !Orderly(n) && silicon in n.rows && n.rows[silicon].publicId == newId
      && n.rows[silicon].custodian == Some(next)
      && (silicon, viewer) in n.holdings.delegations.grants
      && var m := Next(n, Happens(silicon, LookedUp(Summary(Silicon, newId, Some(third), false), at + 1)));
         silicon in m.rows && m.rows[silicon].custodian == Some(third)
           && (silicon, viewer) in m.holdings.delegations.grants
         && m.holdings.delegations.grants[(silicon, viewer)] == maker
  {
    var lookup := LookedUp(Summary(Silicon, newId, Some(next), false), at);
    OvertakenInsertBreaksOrder(w, Insert(Grants, silicon, viewer, maker), lookup);
    OvertakenRun(w, Insert(Grants, silicon, viewer, maker), lookup);
    var n := AfterOvertaken(w, Insert(Grants, silicon, viewer, maker), lookup);
    DelegationStays(n, Happens(silicon, LookedUp(Summary(Silicon, newId, Some(third), false), at + 1)), Grants,
                    (silicon, viewer));
  }
}
