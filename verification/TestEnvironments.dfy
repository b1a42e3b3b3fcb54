// Test-environment lifecycle (src/infrastructure/testing.rs).
//
// Deadlines are applied twice: lazily, by the filters and the logical view every operation uses, and eagerly, by a
// background sweep that rewrites and deletes rows. Each locked transaction is one atomic step on the stored table; a
// lease holds its environment's lock between entering and finishing.
module TestEnvironments {
  import opened Wrappers

  const DAY: int := 86_400_000_000
  const ACTIVE_SPAN: int := 15 * DAY
  const KEPT_SPAN: int := 45 * DAY

  type Id = nat
  type Uuid = string
  type Key = string

  /**
   * One stored row. `keyHash` holds the key whose digest is stored: digests are taken to be injective. Rows from before
   * the move to accounts keep their organization, and have an owner once they are linked to an account.
   */
  datatype Env = Env(
    owner: Option<Uuid>, org: Option<string>, name: string, description: Option<string>, managed: bool, version: nat,
    createdAt: int, lastActivityAt: int, deletedAt: Option<int>, purgeAfter: Option<int>,
    keyHash: Option<Key>, secret: Key)

  type Table = map<Id, Env>

  datatype Access = Access(readers: set<Uuid>, managers: set<Uuid>)

  datatype Refusal = NotFound | NotManager | StateConflict | ActiveLimit | NameConflict | InvalidPage

  /** What responses show of an environment, the version counter apart. */
  datatype Metadata = Metadata(id: Id, owner: Option<Uuid>, name: string, description: Option<string>, createdAt: int,
                               lastActivityAt: int, deletedAt: Option<int>, purgeAfter: Option<int>)

  // ---- lazy deadlines ----

  predicate Stored(e: Env) { e.deletedAt.None? }
  predicate Idle(e: Env, now: int) { e.lastActivityAt + ACTIVE_SPAN <= now }
  predicate Active(e: Env, now: int) { Stored(e) && !Idle(e, now) }

  function Deadline(e: Env): int {
    if e.purgeAfter.Some? then e.purgeAfter.value else e.lastActivityAt + KEPT_SPAN
  }

  predicate Expired(e: Env, now: int) { Deadline(e) <= now }

  /** The view of a row as if its retirement had been written the moment it fell due. */
  function Logical(e: Env, now: int): Env {
    if Stored(e) && Idle(e, now)
    then e.(deletedAt := Some(e.lastActivityAt + ACTIVE_SPAN), purgeAfter := Some(e.lastActivityAt + KEPT_SPAN))
    else e
  }

  function Show(id: Id, e: Env, now: int): Metadata {
    var l := Logical(e, now);
    Metadata(id, l.owner, l.name, l.description, l.createdAt, l.lastActivityAt, l.deletedAt, l.purgeAfter)
  }

  predicate Readable(t: Table, access: Access, id: Id, now: int) {
    id in t && t[id].owner.Some? && t[id].owner.value in access.readers && t[id].managed && !Expired(t[id], now)
  }

  // ---- operations ----

  function Get(t: Table, access: Access, id: Id, now: int): Result<Metadata, Refusal> {
    if Readable(t, access, id, now) then Ok(Show(id, t[id], now)) else Err(NotFound)
  }

  function ReadKey(t: Table, access: Access, id: Id, now: int): Result<Key, Refusal> {
    if Readable(t, access, id, now) && Logical(t[id], now).deletedAt.None? then Ok(t[id].secret) else Err(NotFound)
  }

  predicate IsLeast(ids: set<Id>, id: Id) { id in ids && forall other | other in ids :: id <= other }

  function Least(ids: set<Id>): (id: Id)
    requires ids != {}
    ensures IsLeast(ids, id)
  {
    LeastExists(ids);
    var id :| id in ids && IsLeast(ids, id);
    id
  }

  lemma {:induction false} LeastExists(ids: set<Id>)
    requires ids != {}
    ensures exists id :: id in ids && IsLeast(ids, id)
  {
    var x :| x in ids;
    var rest := ids - {x};
    if rest == {} {
      assert ids == {x} && IsLeast(ids, x);
    } else {
      LeastExists(rest);
      var y :| y in rest && IsLeast(rest, y);
      assert IsLeast(ids, if x < y then x else y) by {
        assert forall other | other in ids :: other == x || other in rest;
      }
    }
  }

  /** `ORDER BY id LIMIT limit`. */
  function FirstIds(ids: set<Id>, limit: nat): (page: seq<Id>)
    ensures |page| <= limit && forall i | 0 <= i < |page| :: page[i] in ids
    decreases limit
  {
    if limit == 0 || ids == {} then [] else [Least(ids)] + FirstIds(ids - {Least(ids)}, limit - 1)
  }

  predicate Ascending(s: seq<Id>) { forall i, j | 0 <= i < j < |s| :: s[i] < s[j] }

  /** `FirstIds` lists the smallest ids in order, and stops short only when it has listed them all. */
  lemma {:induction false} FirstIdsAreFirst(ids: set<Id>, limit: nat)
    ensures var page := FirstIds(ids, limit);
      && Ascending(page) && (forall x | x in page :: x in ids)
      && (forall x | x in ids && x !in page :: |page| == limit && forall y | y in page :: y < x)
    decreases limit
  {
    if limit > 0 && ids != {} {
      var least := Least(ids);
      var rest := FirstIds(ids - {least}, limit - 1);
      FirstIdsAreFirst(ids - {least}, limit - 1);
      assert forall i | 0 <= i < |rest| :: rest[i] in rest;
    }
  }

  ghost function Listed(t: Table, access: Access, deleted: bool, after: Option<Id>, now: int): set<Id> {
    set id | id in t && Readable(t, access, id, now) && (deleted || Active(t[id], now))
      && (after.Some? ==> id > after.value)
  }

  ghost function List(t: Table, access: Access, deleted: bool, after: Option<Id>, limit: int, now: int)
    : Result<seq<Metadata>, Refusal>
  {
    if !(1 <= limit <= 100) then Err(InvalidPage) else
      var ids := FirstIds(Listed(t, access, deleted, after, now), limit);
      Ok(seq(|ids|, i requires 0 <= i < |ids| => Show(ids[i], t[ids[i]], now)))
  }

  ghost function ActiveOf(t: Table, owner: Option<Uuid>, now: int): set<Id> {
    set id | id in t && t[id].owner == owner && Active(t[id], now)
  }

  /** Same name under the same owner, or under the same organization: one unique index for each. */
  predicate Clash(e: Env, f: Env) {
    e.name == f.name && ((e.owner.Some? && e.owner == f.owner) || (e.org.Some? && e.org == f.org))
  }

  /** Another stored-active row that holds the name: the unique indexes look at stored rows. */
  predicate Namesake(t: Table, id: Id, other: Id)
    requires id in t
  {
    other in t && other != id && Stored(t[other]) && t[other].managed && Clash(t[other], t[id])
  }

  ghost function RotateRefusal(t: Table, access: Access, id: Id, restore: bool, now: int): Option<Refusal> {
    if !Readable(t, access, id, now) then Some(NotFound)
    else if t[id].owner.value !in access.managers then Some(NotManager)
    else if Logical(t[id], now).deletedAt.Some? != restore then Some(StateConflict)
    else if restore && |ActiveOf(t, t[id].owner, now)| >= 5 then Some(ActiveLimit)
    else None
  }

  ghost function Rotate(t: Table, access: Access, id: Id, restore: bool, key: Key,
                        now: int): (Table, Result<Key, Refusal>) {
    var refusal := RotateRefusal(t, access, id, restore, now);
    if refusal.Some? then (t, Err(refusal.value))
    else if exists other :: Namesake(t, id, other) then (t, Err(NameConflict))
    else (t[id := Rotated(t[id], key, now)], Ok(key))
  }

  function Rotated(e: Env, key: Key, now: int): Env {
    e.(keyHash := Some(key), secret := key, deletedAt := None, purgeAfter := None, lastActivityAt := now,
       version := e.version + 1)
  }

  function Retired(e: Env, now: int): Env {
    if !Stored(e) then e else
      var at := if now < e.lastActivityAt + ACTIVE_SPAN then now else e.lastActivityAt + ACTIVE_SPAN;
      e.(keyHash := None, deletedAt := Some(at), purgeAfter := Some(at + KEPT_SPAN - ACTIVE_SPAN),
         version := e.version + 1)
  }

  function RetireOne(t: Table, id: Id, now: int): Table {
    if id in t then t[id := Retired(t[id], now)] else t
  }

  function DeleteRefusal(t: Table, access: Access, id: Id, now: int): Option<Refusal> {
    if !Readable(t, access, id, now) then Some(NotFound)
    else if t[id].owner.value !in access.managers then Some(NotManager)
    else None
  }

  function Delete(t: Table, access: Access, id: Id, now: int): (Table, Result<(), Refusal>) {
    var refusal := DeleteRefusal(t, access, id, now);
    if refusal.Some? then (t, Err(refusal.value)) else (RetireOne(t, id, now), Ok(()))
  }

  predicate Admits(t: Table, id: Id, key: Key, now: int) {
    id in t && t[id].keyHash == Some(key) && t[id].managed && Active(t[id], now)
  }

  predicate WellFormedKey(key: Key) {
    |key| == 32 && forall c | c in key :: '0' <= c <= '9' || 'A' <= c <= 'Z' || 'a' <= c <= 'z'
  }

  /** The environment a key enters, if any. */
  ghost function Enter(t: Table, key: Key, now: int): Option<Id> {
    if WellFormedKey(key) && exists id :: Admits(t, id, key, now)
    then var id :| Admits(t, id, key, now); Some(id) else None
  }

  function Touch(t: Table, id: Id, now: int): Table {
    if id in t && Stored(t[id]) then t[id := t[id].(lastActivityAt := now)] else t
  }

  /** The sweep's transaction for one id. */
  function SweepOne(t: Table, id: Id, now: int): Table {
    if id !in t then t
    else if Expired(t[id], now) then t - {id}
    else if Stored(t[id]) && Idle(t[id], now) then
      t[id := t[id].(keyHash := None, deletedAt := Some(t[id].lastActivityAt + ACTIVE_SPAN),
                     purgeAfter := Some(t[id].lastActivityAt + KEPT_SPAN), version := t[id].version + 1)]
    else t
  }

  function SweepMany(t: Table, ids: seq<Id>, now: int): Table {
    if ids == [] then t else SweepOne(SweepMany(t, ids[..|ids| - 1], now), ids[|ids| - 1], now)
  }

  predicate DueForSweep(e: Env, now: int) {
    e.managed && ((Stored(e) && Idle(e, now)) || (e.purgeAfter.Some? && e.purgeAfter.value <= now))
  }

  function DueIds(t: Table, now: int): set<Id> { set id | id in t && DueForSweep(t[id], now) }

  /** The table's CHECK constraints and unique indexes, and the pairing of digest and sealed key. */
  ghost predicate WellFormed(t: Table) {
    && (forall id | id in t :: (Stored(t[id]) <==> t[id].purgeAfter.None?) && (Stored(t[id]) <==> t[id].keyHash.Some?))
    && (forall id | id in t && Stored(t[id]) :: t[id].keyHash == Some(t[id].secret))
    && (forall a, b | a in t && b in t && a != b && t[a].keyHash.Some? :: t[a].keyHash != t[b].keyHash)
    && (forall a, b | a in t && Stored(t[a]) && t[a].managed :: !Namesake(t, a, b))
  }

  /** The control table, changed in place. */
  class Control {
    var rows: Table

    constructor (initial: Table)
      ensures rows == initial
    {
      rows := initial;
    }

    method RotateKey(access: Access, id: Id, restore: bool, key: Key, now: int) returns (answer: Result<Key, Refusal>)
      modifies this
      ensures (rows, answer) == Rotate(old(rows), access, id, restore, key, now)
    {
      var refused := GuardedGet(access, id, now);
      if refused.Some? {
        return Err(refused.value);
      }
      var e := rows[id];
      if Logical(e, now).deletedAt.Some? != restore {
        return Err(StateConflict);
      }
      if restore {
        var active := set other | other in rows && rows[other].owner == e.owner && Active(rows[other], now);
        assert active == ActiveOf(rows, e.owner, now);
        if |active| >= 5 {
          return Err(ActiveLimit);
        }
      }
      var namesakes := set other | other in rows && Namesake(rows, id, other);
      if namesakes != {} {
        var other :| other in namesakes;
        assert Namesake(rows, id, other);
        return Err(NameConflict);
      }
      assert forall other :: Namesake(rows, id, other) ==> other in namesakes;
      rows := rows[id := Rotated(e, key, now)];
      return Ok(key);
    }

    /** Visibility, then the right to manage. */
    method GuardedGet(access: Access, id: Id, now: int) returns (refusal: Option<Refusal>)
      ensures refusal == DeleteRefusal(rows, access, id, now)
    {
      if id !in rows || rows[id].owner.None? || rows[id].owner.value !in access.readers || !rows[id].managed
         || Deadline(rows[id]) <= now {
        return Some(NotFound);
      }
      if rows[id].owner.value !in access.managers {
        return Some(NotManager);
      }
      return None;
    }

    method DeleteEnvironment(access: Access, id: Id, now: int) returns (answer: Result<(), Refusal>)
      modifies this
      ensures (rows, answer) == Delete(old(rows), access, id, now)
    {
      var refused := GuardedGet(access, id, now);
      if refused.Some? {
        return Err(refused.value);
      }
      var e := rows[id];
      if e.deletedAt.None? {
        var at := if now < e.lastActivityAt + ACTIVE_SPAN then now else e.lastActivityAt + ACTIVE_SPAN;
        rows := rows[id := e.(keyHash := None, deletedAt := Some(at), purgeAfter := Some(at + KEPT_SPAN - ACTIVE_SPAN),
                              version := e.version + 1)];
      } else {
        assert rows == rows[id := e];
      }
      return Ok(());
    }

    /** One background pass: up to 100 due rows, in id order, each rechecked in its own transaction. */
    method Sweep(now: int) returns (ids: seq<Id>)
      modifies this
      ensures ids == FirstIds(DueIds(old(rows), now), 100)
      ensures rows == SweepMany(old(rows), ids, now)
    {
      ids := FirstIds(DueIds(rows, now), 100);
      var done := 0;
      while done < |ids|
        invariant 0 <= done <= |ids|
        invariant rows == SweepMany(old(rows), ids[..done], now)
      {
        assert ids[..done + 1][..done] == ids[..done];
        SweepLocked(ids[done], now);
        done := done + 1;
      }
      assert ids[..done] == ids;
    }

    method SweepLocked(id: Id, now: int)
      modifies this
      ensures rows == SweepOne(old(rows), id, now)
    {
      if id in rows {
        var e := rows[id];
        if Deadline(e) <= now {
          rows := rows - {id};
        } else if e.deletedAt.None? && e.lastActivityAt <= now - ACTIVE_SPAN {
          rows := rows[id := e.(keyHash := None, deletedAt := Some(e.lastActivityAt + ACTIVE_SPAN),
                                purgeAfter := Some(e.lastActivityAt + KEPT_SPAN), version := e.version + 1)];
        }
      }
    }
  }

  // ---- what the operations do, seen from outside ----

  predicate SameElsewhere(t: Table, n: Table, id: Id) {
    n.Keys == t.Keys && forall other | other in t && other != id :: n[other] == t[other]
  }

  /**
   * A rotation or restore that answers with a key leaves the environment active for 15 days from now and shows it so,
   * hands out that key and no other, and leaves every other row as it is.
   */
  lemma RotatedIsActive(t: Table, access: Access, id: Id, restore: bool, key: Key, now: int, later: int)
    requires Rotate(t, access, id, restore, key, now).1 == Ok(key) && now <= later < now + 15 * DAY
    ensures var n := Rotate(t, access, id, restore, key, now).0;
      && id in t && SameElsewhere(t, n, id) && Active(n[id], later) && n[id].managed == t[id].managed
      && n[id].org == t[id].org && n[id].version == t[id].version + 1
      && Get(n, access, id, later) == Ok(Metadata(id, t[id].owner, t[id].name, t[id].description, t[id].createdAt,
                                                  now, None, None))
      && ReadKey(n, access, id, later) == Ok(key)
  {}

  /** The new key enters the environment, and the one before no longer enters any. */
  lemma RotatedKeyEnters(t: Table, access: Access, id: Id, restore: bool, key: Key, now: int, later: int, previous: Key)
    requires WellFormed(t) && Rotate(t, access, id, restore, key, now).1 == Ok(key) && now <= later < now + 15 * DAY
    requires WellFormedKey(key) && forall other | other in t :: t[other].keyHash != Some(key)
    ensures var n := Rotate(t, access, id, restore, key, now).0;
      Enter(n, key, later) == Some(id) && (t[id].keyHash == Some(previous) ==> Enter(n, previous, later) == None)
  {
    RotatedIsActive(t, access, id, restore, key, now, later);
    var n := Rotate(t, access, id, restore, key, now).0;
    assert Admits(n, id, key, later);
    forall other | Admits(n, other, key, later) ensures other == id {
      assert other in t;
    }
    forall other | t[id].keyHash == Some(previous) ensures !Admits(n, other, previous, later) {
      assert other in n && other != id ==> n[other] == t[other] && t[other].keyHash != t[id].keyHash;
    }
  }

  /** A restore never gives an owner more than five active environments. */
  lemma RestoreKeepsLimit(t: Table, access: Access, id: Id, key: Key, now: int)
    requires Rotate(t, access, id, true, key, now).1.Ok?
    ensures |ActiveOf(Rotate(t, access, id, true, key, now).0, t[id].owner, now)| <= 5
  {
    var n := Rotate(t, access, id, true, key, now).0;
    assert ActiveOf(n, t[id].owner, now) == ActiveOf(t, t[id].owner, now) + {id};
  }

  /**
   * A deleted environment is no longer active, hands out no key, is entered by none, and shows since when: now, or the
   * day it had lapsed before. It is kept for another 30 days.
   */
  lemma DeletedIsRetired(t: Table, access: Access, id: Id, now: int, later: int, key: Key)
    requires WellFormed(t) && Delete(t, access, id, now).1.Ok? && now <= later
    ensures var n := Delete(t, access, id, now).0;
      && SameElsewhere(t, n, id) && !Active(n[id], later) && ReadKey(n, access, id, later) == Err(NotFound)
      && Enter(n, key, later) != Some(id)
      && (Stored(t[id]) ==>
            var at := if now < t[id].lastActivityAt + 15 * DAY then now else t[id].lastActivityAt + 15 * DAY;
            Get(n, access, id, later) == if later < at + 30 * DAY
              then Ok(Metadata(id, t[id].owner, t[id].name, t[id].description, t[id].createdAt, t[id].lastActivityAt,
                               Some(at), Some(at + 30 * DAY)))
              else Err(NotFound))
      && (!Stored(t[id]) ==> n == t)
  {}

  /** Using an active environment postpones its lapse to 15 days from then, and touches nothing else. */
  lemma TouchedIsActive(t: Table, id: Id, now: int, later: int)
    requires id in t && Active(t[id], now) && now <= later < now + 15 * DAY
    ensures var n := Touch(t, id, now);
      SameElsewhere(t, n, id) && Active(n[id], later) && n[id] == t[id].(lastActivityAt := now)
  {}

  predicate Wanted(item: Metadata, deleted: bool, after: Option<Id>) {
    (deleted || item.deletedAt.None?) && (after.Some? ==> item.id > after.value)
  }

  /**
   * A page lists, in order, the first environments the account can get that are wanted, each as getting it shows it.
   */
  lemma {:induction false} ListShowsTheFirst(t: Table, access: Access, deleted: bool, after: Option<Id>, limit: int,
                                             now: int)
    requires 1 <= limit <= 100
    ensures var page := List(t, access, deleted, after, limit, now);
      && page.Ok? && |page.value| <= limit
      && (forall i, j | 0 <= i < j < |page.value| :: page.value[i].id < page.value[j].id)
      && (forall item | item in page.value :: Get(t, access, item.id, now) == Ok(item) && Wanted(item, deleted, after))
      && (forall id | Get(t, access, id, now).Ok? && Wanted(Get(t, access, id, now).value, deleted, after) ::
            Get(t, access, id, now).value in page.value
            || (|page.value| == limit && forall item | item in page.value :: item.id < id))
  {
    var ids := FirstIds(Listed(t, access, deleted, after, now), limit);
    var page := List(t, access, deleted, after, limit, now).value;
    FirstIdsAreFirst(Listed(t, access, deleted, after, now), limit);
    assert forall i | 0 <= i < |ids| :: page[i] == Show(ids[i], t[ids[i]], now) && ids[i] in ids;
    forall id | Get(t, access, id, now).Ok? && Wanted(Get(t, access, id, now).value, deleted, after)
      ensures id in Listed(t, access, deleted, after, now)
    {}
  }

  /** A key enters an environment exactly when its owner's readers are shown that key for it. */
  lemma {:induction false} EntersIffShown(t: Table, access: Access, id: Id, key: Key, now: int)
    requires WellFormed(t) && WellFormedKey(key)
    requires id in t && t[id].owner.Some? && t[id].owner.value in access.readers
    ensures Enter(t, key, now) == Some(id) <==> ReadKey(t, access, id, now) == Ok(key)
  {
    if ReadKey(t, access, id, now) == Ok(key) { assert Admits(t, id, key, now); }
    forall other | Admits(t, other, key, now) && Admits(t, id, key, now) ensures other == id {
      assert t[other].keyHash == t[id].keyHash;
    }
  }

  /** The sweep picks exactly the managed environments it would change. */
  lemma {:induction false} DueIffSweepChanges(t: Table, id: Id, now: int)
    requires WellFormed(t) && id in t
    ensures id in DueIds(t, now) <==> t[id].managed && SweepOne(t, id, now) != t
  {
    if Stored(t[id]) && Idle(t[id], now) && !Expired(t[id], now) {
      assert SweepOne(t, id, now)[id].deletedAt.Some?;
    } else if Expired(t[id], now) {
      assert id !in SweepOne(t, id, now);
    }
  }
}
