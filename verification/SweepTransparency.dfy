// The background sweep is invisible: runs with any sweeps inserted answer exactly like the run without them.
module SweepTransparency {
  import opened Wrappers
  import opened TestEnvironments

  // ---- a simulation between an unswept table and a swept one ----

  predicate SameButVersion(e: Env, f: Env) { e.(version := 0) == f.(version := 0) }

  /** `f` is `e` after the sweep wrote the retirement that had fallen due. */
  predicate SweptFrom(e: Env, f: Env, now: int) {
    Stored(e) && Idle(e, now) &&
    f.(version := 0) == e.(keyHash := None, deletedAt := Some(e.lastActivityAt + ACTIVE_SPAN),
                           purgeAfter := Some(e.lastActivityAt + KEPT_SPAN), version := 0)
  }

  /** How row `id` may differ between the unswept table `a` and the swept table `b`; never while it is leased. */
  ghost predicate RowBehind(a: Table, b: Table, held: set<Id>, id: Id, now: int) {
    && (id in b ==> id in a && (SameButVersion(a[id], b[id]) || (id !in held && SweptFrom(a[id], b[id], now))))
    && (id in a && id !in b ==> id !in held && Expired(a[id], now))
    && (id in held ==> id in a && Stored(a[id]))
  }

  ghost predicate Behind(a: Table, b: Table, held: set<Id>, now: int) {
    && WellFormed(a) && WellFormed(b)
    && forall id :: RowBehind(a, b, held, id, now)
  }

  lemma Ages(a: Table, b: Table, held: set<Id>, now: int, later: int)
    requires Behind(a, b, held, now) && now <= later
    ensures Behind(a, b, held, later)
  {
    forall id ensures RowBehind(a, b, held, id, later) {
      assert RowBehind(a, b, held, id, now);
    }
  }

  /** Everything an operation looks at through the lazy deadlines is the same on both tables. */
  lemma {:induction false} RowsAgree(a: Table, b: Table, held: set<Id>, access: Access, id: Id, now: int)
    requires Behind(a, b, held, now)
    ensures Readable(a, access, id, now) <==> Readable(b, access, id, now)
    ensures Readable(a, access, id, now) ==>
      && Show(id, a[id], now) == Show(id, b[id], now)
      && a[id].owner == b[id].owner && a[id].name == b[id].name && a[id].secret == b[id].secret
      && Logical(a[id], now).deletedAt == Logical(b[id], now).deletedAt
    ensures (id in a && Active(a[id], now)) <==> (id in b && Active(b[id], now))
    ensures id in a && Active(a[id], now) ==> SameButVersion(a[id], b[id])
  {
    assert RowBehind(a, b, held, id, now);
  }

  lemma GetAgrees(a: Table, b: Table, held: set<Id>, access: Access, id: Id, now: int)
    requires Behind(a, b, held, now)
    ensures Get(a, access, id, now) == Get(b, access, id, now)
    ensures ReadKey(a, access, id, now) == ReadKey(b, access, id, now)
  {
    RowsAgree(a, b, held, access, id, now);
  }

  lemma {:induction false} ListAgrees(a: Table, b: Table, held: set<Id>, access: Access, deleted: bool,
                                      after: Option<Id>, limit: int, now: int)
    requires Behind(a, b, held, now)
    ensures List(a, access, deleted, after, limit, now) == List(b, access, deleted, after, limit, now)
  {
    forall id ensures id in Listed(a, access, deleted, after, now) <==> id in Listed(b, access, deleted, after, now) {
      RowsAgree(a, b, held, access, id, now);
    }
    assert Listed(a, access, deleted, after, now) == Listed(b, access, deleted, after, now);
    forall id | id in Listed(a, access, deleted, after, now) ensures Show(id, a[id], now) == Show(id, b[id], now) {
      RowsAgree(a, b, held, access, id, now);
    }
    if 1 <= limit <= 100 {
      assert List(a, access, deleted, after, limit, now).value == List(b, access, deleted, after, limit, now).value;
    }
  }

  lemma EnterAgrees(a: Table, b: Table, held: set<Id>, key: Key, now: int)
    requires Behind(a, b, held, now)
    ensures Enter(a, key, now) == Enter(b, key, now)
  {
    forall id ensures Admits(a, id, key, now) <==> Admits(b, id, key, now) {
      RowsAgree(a, b, held, Access({}, {}), id, now);
    }
  }

  /** The name is taken, but only by rows whose retirement is due and not yet written. */
  ghost predicate SweepFreesName(t: Table, id: Id, now: int) {
    id in t && (exists other :: Namesake(t, id, other))
      && forall other :: Namesake(t, id, other) ==> Idle(t[other], now)
  }

  lemma RefusalAgrees(a: Table, b: Table, held: set<Id>, access: Access, id: Id, restore: bool, now: int)
    requires Behind(a, b, held, now)
    ensures RotateRefusal(a, access, id, restore, now) == RotateRefusal(b, access, id, restore, now)
  {
    RowsAgree(a, b, held, access, id, now);
    if Readable(a, access, id, now) {
      forall other ensures other in ActiveOf(a, a[id].owner, now) <==> other in ActiveOf(b, b[id].owner, now) {
        RowsAgree(a, b, held, access, other, now);
      }
      assert ActiveOf(a, a[id].owner, now) == ActiveOf(b, b[id].owner, now);
    }
  }

  lemma NamesakesAgree(a: Table, b: Table, held: set<Id>, id: Id, now: int)
    requires Behind(a, b, held, now) && !SweepFreesName(a, id, now) && id in a && id in b
    ensures (exists other :: Namesake(a, id, other)) <==> (exists other :: Namesake(b, id, other))
  {
    assert RowBehind(a, b, held, id, now);
    forall other ensures Namesake(b, id, other) ==> Namesake(a, id, other) {
      assert RowBehind(a, b, held, other, now);
    }
    forall other ensures Namesake(a, id, other) && !Idle(a[other], now) ==> Namesake(b, id, other) {
      assert RowBehind(a, b, held, other, now);
    }
  }

  /** A stored-active row holds its name alone, so only restores can find it taken. */
  lemma StoredHasNoNamesake(t: Table, id: Id)
    requires WellFormed(t) && id in t && Stored(t[id]) && t[id].managed
    ensures forall other :: !Namesake(t, id, other)
  {}

  lemma RotatedAgrees(a: Table, b: Table, held: set<Id>, id: Id, key: Key, now: int)
    requires Behind(a, b, held, now) && id in a && id in b && id !in held
    requires forall other | other in a :: a[other].keyHash != Some(key)
    requires forall other :: !Namesake(a, id, other) && !Namesake(b, id, other)
    ensures Behind(a[id := Rotated(a[id], key, now)], b[id := Rotated(b[id], key, now)], held, now)
  {
    var na, nb := a[id := Rotated(a[id], key, now)], b[id := Rotated(b[id], key, now)];
    forall other ensures RowBehind(na, nb, held, other, now) && (other in b ==> b[other].keyHash != Some(key)) {
      assert RowBehind(a, b, held, other, now);
    }
    RotatedStaysWellFormed(a, id, key, now);
    RotatedStaysWellFormed(b, id, key, now);
  }

  /** A rotation the sweep can interfere with: a restore, allowed otherwise, of a name that only a sweep frees. */
  ghost predicate WaitsForSweep(t: Table, access: Access, id: Id, restore: bool, now: int) {
    restore && RotateRefusal(t, access, id, restore, now).None? && SweepFreesName(t, id, now)
  }

  lemma RotateAgrees(a: Table, b: Table, held: set<Id>, access: Access, id: Id, restore: bool, key: Key, now: int)
    requires Behind(a, b, held, now) && !WaitsForSweep(a, access, id, restore, now) && id !in held
    requires forall other | other in a :: a[other].keyHash != Some(key)
    ensures Rotate(a, access, id, restore, key, now).1 == Rotate(b, access, id, restore, key, now).1
    ensures Behind(Rotate(a, access, id, restore, key, now).0, Rotate(b, access, id, restore, key, now).0, held, now)
  {
    RefusalAgrees(a, b, held, access, id, restore, now);
    if RotateRefusal(a, access, id, restore, now).None? {
      if restore {
        NamesakesAgree(a, b, held, id, now);
      } else {
        StoredHasNoNamesake(a, id);
        StoredHasNoNamesake(b, id);
      }
      if forall other :: !Namesake(a, id, other) { RotatedAgrees(a, b, held, id, key, now); }
    }
  }

  lemma RotatedStaysWellFormed(t: Table, id: Id, key: Key, now: int)
    requires WellFormed(t) && id in t && (forall other | other in t :: t[other].keyHash != Some(key))
    requires forall other :: !Namesake(t, id, other)
    ensures WellFormed(t[id := Rotated(t[id], key, now)])
  {
    var n := t[id := Rotated(t[id], key, now)];
    forall x, y | x in n && Stored(n[x]) && n[x].managed ensures !Namesake(n, x, y) {
      if x != id && y != id && x in t { assert !Namesake(t, x, y); }
      if Namesake(n, x, y) && y == id { assert Namesake(t, id, x); }
      if Namesake(n, x, y) && x == id { assert Namesake(t, id, y); }
    }
  }

  lemma {:induction false} RetiredStaysWellFormed(t: Table, id: Id, now: int)
    requires WellFormed(t)
    ensures WellFormed(RetireOne(t, id, now))
  {
    ShrinkingStaysWellFormed(t, RetireOne(t, id, now));
  }

  lemma {:induction false} RetireAgrees(a: Table, b: Table, held: set<Id>, id: Id, now: int)
    requires Behind(a, b, held, now) && id !in held
    ensures Behind(RetireOne(a, id, now), RetireOne(b, id, now), held, now)
  {
    RetiredStaysWellFormed(a, id, now);
    RetiredStaysWellFormed(b, id, now);
    forall other ensures RowBehind(RetireOne(a, id, now), RetireOne(b, id, now), held, other, now) {
      assert RowBehind(a, b, held, other, now);
    }
  }

  /** Retiring or removing rows breaks no constraint. */
  lemma ShrinkingStaysWellFormed(t: Table, n: Table)
    requires WellFormed(t)
    requires forall id | id in n ::
      id in t && n[id].owner == t[id].owner && n[id].org == t[id].org && n[id].name == t[id].name
                                    && n[id].managed == t[id].managed && n[id].secret == t[id].secret
    requires forall id | id in n ::
      (Stored(n[id]) <==> n[id].purgeAfter.None?) && (Stored(n[id]) <==> n[id].keyHash.Some?)
    requires forall id | id in n && Stored(n[id]) :: Stored(t[id]) && n[id].keyHash == t[id].keyHash
    ensures WellFormed(n)
  {
    forall x, y | x in n && Stored(n[x]) && n[x].managed ensures !Namesake(n, x, y) {
      assert !Namesake(t, x, y);
    }
  }

  lemma {:induction false} TouchAgrees(a: Table, b: Table, held: set<Id>, id: Id, now: int)
    requires Behind(a, b, held, now) && id in held
    ensures Behind(Touch(a, id, now), Touch(b, id, now), held, now)
  {
    assert RowBehind(a, b, held, id, now);
    forall other ensures RowBehind(Touch(a, id, now), Touch(b, id, now), held, other, now) {
      assert RowBehind(a, b, held, other, now);
    }
    ShrinkingStaysWellFormed(a, Touch(a, id, now));
    ShrinkingStaysWellFormed(b, Touch(b, id, now));
  }

  /** A sweep step on the swept side alone keeps the relation: this is what its lock and its recheck are for. */
  lemma {:induction false} SweepStaysBehind(a: Table, b: Table, held: set<Id>, id: Id, now: int)
    requires Behind(a, b, held, now) && id !in held
    ensures Behind(a, SweepOne(b, id, now), held, now)
  {
    forall other ensures RowBehind(a, SweepOne(b, id, now), held, other, now) {
      assert RowBehind(a, b, held, other, now);
    }
    ShrinkingStaysWellFormed(b, SweepOne(b, id, now));
  }

  // ---- runs ----

  datatype Lease = Lease(id: Id, exclusive: bool)

  /** The stored table and the admissions currently holding a lock. */
  datatype World = World(table: Table, leases: map<nat, Lease>)

  datatype Request =
    | AskGet(access: Access, id: Id)
    | AskList(access: Access, deleted: bool, after: Option<Id>, limit: int)
    | AskKey(access: Access, id: Id)
    | AskRotate(access: Access, id: Id, restore: bool, key: Key)
    | AskDelete(access: Access, id: Id)
    | RetireOwned(id: Id)                                   // one environment of a deleted account
    | AskEnter(key: Key, exclusive: bool, token: nat)
    | EnterWorker(id: Id, token: nat)
    | Finish(token: nat, activity: bool)
    | SweepId(id: Id)                                       // one id of some background pass

  datatype Call = Call(request: Request, at: int)

  datatype Answer =
    | Shown(metadata: Result<Metadata, Refusal>)
    | Listing(page: Result<seq<Metadata>, Refusal>)
    | KeyIs(key: Result<Key, Refusal>)
    | Done(done: Result<(), Refusal>)
    | Admitted(id: Option<Id>)
    | Nothing

  function Held(w: World): set<Id> { set token | token in w.leases :: w.leases[token].id }

  function Blocked(w: World, id: Id, exclusive: bool): bool {
    exists token :: token in w.leases && w.leases[token].id == id && (exclusive || w.leases[token].exclusive)
  }

  /** What a request waits for: its environment's lock, shared or exclusive. */
  ghost predicate Enabled(w: World, request: Request) {
    match request
    case AskGet(_, _) | AskList(_, _, _, _) => true
    case AskKey(_, id) => !Blocked(w, id, false)
    case AskRotate(_, id, _, _) => !Blocked(w, id, true)
    case AskDelete(_, id) => !Blocked(w, id, true)
    case RetireOwned(id) => !Blocked(w, id, true)
    case AskEnter(key, exclusive, token) =>
      token !in w.leases &&
      forall id | id in w.table && w.table[id].keyHash == Some(key) && w.table[id].managed && Stored(w.table[id]) ::
        !Blocked(w, id, exclusive)
    case EnterWorker(id, token) => token !in w.leases && !Blocked(w, id, false)
    case Finish(token, _) => token in w.leases
    case SweepId(id) => !Blocked(w, id, true)
  }

  ghost function Perform(w: World, c: Call): (World, Answer) {
    var t := w.table;
    match c.request
    case AskGet(access, id) => (w, Shown(Get(t, access, id, c.at)))
    case AskList(access, deleted, after, limit) => (w, Listing(List(t, access, deleted, after, limit, c.at)))
    case AskKey(access, id) => (w, KeyIs(ReadKey(t, access, id, c.at)))
    case AskRotate(access, id, restore, key) =>
      var (n, answer) := Rotate(t, access, id, restore, key, c.at);
      (w.(table := n), KeyIs(answer))
    case AskDelete(access, id) =>
      var (n, answer) := Delete(t, access, id, c.at);
      (w.(table := n), Done(answer))
    case RetireOwned(id) => (w.(table := RetireOne(t, id, c.at)), Nothing)
    case AskEnter(key, exclusive, token) =>
      var found := Enter(t, key, c.at);
      (if found.Some? then w.(leases := w.leases[token := Lease(found.value, exclusive)]) else w, Admitted(found))
    case EnterWorker(id, token) =>
      if id in t && t[id].managed && Active(t[id], c.at)
      then (w.(leases := w.leases[token := Lease(id, false)]), Admitted(Some(id))) else (w, Admitted(None))
    case Finish(token, activity) =>
      (World(if activity && token in w.leases then Touch(t, w.leases[token].id, c.at) else t, w.leases - {token}),
       Nothing)
    case SweepId(id) => (w.(table := SweepOne(t, id, c.at)), Nothing)
  }

  ghost predicate LegalRun(w: World, clock: int, calls: seq<Call>)
    decreases |calls|
  {
    calls == [] ||
    (clock <= calls[0].at && Enabled(w, calls[0].request) && LegalRun(Perform(w, calls[0]).0, calls[0].at, calls[1..]))
  }

  /** The answers given to everybody but the sweep. */
  ghost function Answers(w: World, calls: seq<Call>): seq<Answer>
    decreases |calls|
  {
    if calls == [] then [] else
      var (n, answer) := Perform(w, calls[0]);
      (if calls[0].request.SweepId? then [] else [answer]) + Answers(n, calls[1..])
  }

  function WithoutSweeps(calls: seq<Call>): seq<Call>
    decreases |calls|
  {
    if calls == [] then []
    else (if calls[0].request.SweepId? then [] else [calls[0]]) + WithoutSweeps(calls[1..])
  }

  /** New keys are fresh, and no otherwise allowed restore finds its name held only by rows due to be swept. */
  ghost predicate Guarded(w: World, c: Call) {
    c.request.AskRotate? ==>
      && !WaitsForSweep(w.table, c.request.access, c.request.id, c.request.restore, c.at)
      && forall other | other in w.table :: w.table[other].secret != c.request.key
  }

  ghost predicate GuardedRun(w: World, calls: seq<Call>)
    decreases |calls|
  {
    calls == [] || (Guarded(w, calls[0]) && GuardedRun(Perform(w, calls[0]).0, calls[1..]))
  }

  lemma HeldAfterLease(w: World, token: nat, lease: Lease)
    requires token !in w.leases
    ensures Held(w.(leases := w.leases[token := lease])) == Held(w) + {lease.id}
  {
    var n := w.leases[token := lease];
    assert forall other | other in w.leases :: n[other] == w.leases[other];
    forall id | id in Held(w) + {lease.id} ensures id in Held(w.(leases := n)) {
      if id in Held(w) {
        var other :| other in w.leases && w.leases[other].id == id;
        assert n[other].id == id;
      } else {
        assert n[token].id == id;
      }
    }
  }

  lemma FewerHeld(a: Table, b: Table, held: set<Id>, fewer: set<Id>, now: int)
    requires Behind(a, b, held, now) && fewer <= held
    ensures Behind(a, b, fewer, now)
  {
    forall id ensures RowBehind(a, b, fewer, id, now) {
      assert RowBehind(a, b, held, id, now);
    }
  }

  lemma MoreHeld(a: Table, b: Table, held: set<Id>, id: Id, now: int)
    requires Behind(a, b, held, now) && id in a && Active(a[id], now)
    ensures Behind(a, b, held + {id}, now)
  {
    forall other ensures RowBehind(a, b, held + {id}, other, now) {
      assert RowBehind(a, b, held, other, now);
    }
  }

  ghost predicate Simulates(a: World, b: World, now: int) {
    a.leases == b.leases && Behind(a.table, b.table, Held(a), now)
  }

  /** One request is enabled, answered and followed alike on both sides. */
  lemma {:induction false} RequestAgrees(a: World, b: World, c: Call)
    requires Simulates(a, b, c.at) && Enabled(b, c.request) && Guarded(a, c) && !c.request.SweepId?
    ensures Enabled(a, c.request)
    ensures Perform(a, c).1 == Perform(b, c).1
    ensures Simulates(Perform(a, c).0, Perform(b, c).0, c.at)
  {
    var held := Held(a);
    match c.request
    case AskGet(access, id) => GetAgrees(a.table, b.table, held, access, id, c.at);
    case AskList(access, deleted, after, limit) =>
      ListAgrees(a.table, b.table, held, access, deleted, after, limit, c.at);
    case AskKey(access, id) => GetAgrees(a.table, b.table, held, access, id, c.at);
    case AskRotate(access, id, restore, key) =>
      NotBlockedNotHeld(a, id);
      RotateAgrees(a.table, b.table, held, access, id, restore, key, c.at);
    case AskDelete(access, id) =>
      NotBlockedNotHeld(a, id);
      RowsAgree(a.table, b.table, held, access, id, c.at);
      RetireAgrees(a.table, b.table, held, id, c.at);
    case RetireOwned(id) =>
      NotBlockedNotHeld(a, id);
      RetireAgrees(a.table, b.table, held, id, c.at);
    case AskEnter(key, exclusive, token) => EntryAgrees(a, b, key, exclusive, token, c.at);
    case EnterWorker(id, token) =>
      RowsAgree(a.table, b.table, held, Access({}, {}), id, c.at);
      if id in a.table && a.table[id].managed && Active(a.table[id], c.at) {
        MoreHeld(a.table, b.table, held, id, c.at);
        HeldAfterLease(a, token, Lease(id, false));
      }
    case Finish(token, activity) =>
      assert a.leases[token].id in held;
      var ta := if activity then Touch(a.table, a.leases[token].id, c.at) else a.table;
      var tb := if activity then Touch(b.table, a.leases[token].id, c.at) else b.table;
      if activity { TouchAgrees(a.table, b.table, held, a.leases[token].id, c.at); }
      FewerHeld(ta, tb, held, Held(Perform(a, c).0), c.at);
  }

  lemma NotBlockedNotHeld(w: World, id: Id)
    requires !Blocked(w, id, true)
    ensures id !in Held(w)
  {}

  lemma {:induction false} EntryAgrees(a: World, b: World, key: Key, exclusive: bool, token: nat, at: int)
    requires Simulates(a, b, at) && Enabled(b, AskEnter(key, exclusive, token))
    ensures Enabled(a, AskEnter(key, exclusive, token))
    ensures var c := Call(AskEnter(key, exclusive, token), at);
            Perform(a, c).1 == Perform(b, c).1 && Simulates(Perform(a, c).0, Perform(b, c).0, at)
  {
    var held := Held(a);
    EnterAgrees(a.table, b.table, held, key, at);
    forall id | id in a.table && a.table[id].keyHash == Some(key) && a.table[id].managed && Stored(a.table[id])
      ensures !Blocked(a, id, exclusive)
    {
      assert RowBehind(a.table, b.table, held, id, at);
      if id in held { assert b.table[id].keyHash == Some(key); }
    }
    var found := Enter(a.table, key, at);
    if found.Some? {
      MoreHeld(a.table, b.table, held, found.value, at);
      HeldAfterLease(a, token, Lease(found.value, exclusive));
    }
  }

  lemma {:induction false} SweptRunAgrees(a: World, b: World, clock: int, calls: seq<Call>)
    requires Simulates(a, b, clock) && LegalRun(b, clock, calls) && GuardedRun(a, WithoutSweeps(calls))
    ensures LegalRun(a, clock, WithoutSweeps(calls))
    ensures Answers(a, WithoutSweeps(calls)) == Answers(b, calls)
    decreases |calls|
  {
    if calls != [] {
      var c := calls[0];
      Ages(a.table, b.table, Held(a), clock, c.at);
      if c.request.SweepId? {
        NotBlockedNotHeld(b, c.request.id);
        assert WithoutSweeps(calls) == WithoutSweeps(calls[1..]);
        assert Answers(b, calls) == Answers(Perform(b, c).0, calls[1..]);
        SweepStaysBehind(a.table, b.table, Held(a), c.request.id, c.at);
        SweptRunAgrees(a, Perform(b, c).0, c.at, calls[1..]);
        LegalFromEarlier(a, clock, c.at, WithoutSweeps(calls[1..]));
      } else {
        var plain := WithoutSweeps(calls);
        assert plain[0] == c && plain[1..] == WithoutSweeps(calls[1..]);
        RequestAgrees(a, b, c);
        assert calls[0].request.SweepId? == false;
        SweptRunAgrees(Perform(a, c).0, Perform(b, c).0, c.at, calls[1..]);
      }
    }
  }

  lemma LegalFromEarlier(w: World, clock: int, later: int, calls: seq<Call>)
    requires clock <= later && LegalRun(w, later, calls)
    ensures LegalRun(w, clock, calls)
  {}

  /**
   * Sweep steps, inserted anywhere and as often as one likes, change no answer of any other operation: taking them out
   * of a legal run leaves a legal run with the same answers.
   */
  lemma SweepsAreInvisible(w: World, clock: int, calls: seq<Call>)
    requires WellFormed(w.table) && (forall id | id in Held(w) :: id in w.table && Stored(w.table[id]))
    requires LegalRun(w, clock, calls) && GuardedRun(w, WithoutSweeps(calls))
    ensures LegalRun(w, clock, WithoutSweeps(calls))
    ensures Answers(w, WithoutSweeps(calls)) == Answers(w, calls)
  {
    assert forall id :: RowBehind(w.table, w.table, Held(w), id, clock);
    SweptRunAgrees(w, w, clock, calls);
  }

  // ---- why restores need the guard, exactly ----

  lemma {:induction false} SweepManyStaysBehind(a: Table, b: Table, ids: seq<Id>, now: int)
    requires Behind(a, b, {}, now)
    ensures Behind(a, SweepMany(b, ids, now), {}, now)
  {
    if ids != [] {
      SweepManyStaysBehind(a, b, ids[..|ids| - 1], now);
      SweepStaysBehind(a, SweepMany(b, ids[..|ids| - 1], now), {}, ids[|ids| - 1], now);
    }
  }

  ghost predicate RestoreSameAfter(t: Table, ids: seq<Id>, access: Access, id: Id, key: Key, now: int) {
    Rotate(SweepMany(t, ids, now), access, id, true, key, now).1 == Rotate(t, access, id, true, key, now).1
  }

  predicate SameRow(t: Table, n: Table, id: Id) { (id in t <==> id in n) && (id in t ==> t[id] == n[id]) }

  lemma {:induction false} SweepManyRow(t: Table, ids: seq<Id>, id: Id, now: int)
    requires WellFormed(t)
    ensures SameRow(SweepMany(t, ids, now), if id in ids then SweepOne(t, id, now) else t, id)
  {
    if ids != [] {
      var before, last := ids[..|ids| - 1], ids[|ids| - 1];
      assert ids == before + [last];
      SweepManyRow(t, before, id, now);
      var m := SweepMany(t, before, now);
      assert last != id ==> SameRow(m, SweepOne(m, last, now), id);
      assert (id in ids) == (id in before || id == last);
    }
  }

  /** Any finite set of ids can be swept in one sequence. */
  lemma {:induction false} Sequence(ids: set<Id>) returns (s: seq<Id>)
    ensures forall x :: x in s <==> x in ids
    decreases |ids|
  {
    s := [];
    if ids != {} {
      var x :| x in ids;
      var rest := Sequence(ids - {x});
      s := rest + [x];
    }
  }

  /** Sweeping all idle holders of the name leaves no holder. */
  lemma SweptNamesakesAreGone(t: Table, ids: seq<Id>, id: Id, now: int)
    requires WellFormed(t) && id in t && forall other :: other in ids <==> Namesake(t, id, other)
    requires forall other :: Namesake(t, id, other) ==> Idle(t[other], now)
    ensures var n := SweepMany(t, ids, now); id in n && forall other :: !Namesake(n, id, other)
  {
    var n := SweepMany(t, ids, now);
    SweepManyRow(t, ids, id, now);
    forall other ensures !Namesake(n, id, other) {
      SweepManyRow(t, ids, other, now);
      if other in ids { SweptIsNotStored(t, other, now); }
    }
  }

  lemma SweptIsNotStored(t: Table, id: Id, now: int)
    requires id in t && Stored(t[id]) && Idle(t[id], now)
    ensures id in SweepOne(t, id, now) ==> !Stored(SweepOne(t, id, now)[id])
  {}

  /**
   * A restore that passes every other check answers independently of the sweep exactly when its name is free, or is
   * held by some row that is not idle: the unique name indexes look at stored rows, idle or not.
   */
  lemma {:induction false} RestoreTransparentIff(t: Table, access: Access, id: Id, key: Key, now: int)
    requires WellFormed(t) && (forall other | other in t :: t[other].keyHash != Some(key))
    requires RotateRefusal(t, access, id, true, now).None?
    ensures (forall ids :: RestoreSameAfter(t, ids, access, id, key, now))
            <==> ((forall other :: !Namesake(t, id, other))
                  || exists other :: Namesake(t, id, other) && !Idle(t[other], now))
  {
    assert forall other :: RowBehind(t, t, {}, other, now);
    if SweepFreesName(t, id, now) {
      var ids := Sequence(set other | other in t && Namesake(t, id, other));
      var swept := SweepMany(t, ids, now);
      SweepManyStaysBehind(t, t, ids, now);
      RefusalAgrees(t, swept, {}, access, id, true, now);
      SweptNamesakesAreGone(t, ids, id, now);
      assert !RestoreSameAfter(t, ids, access, id, key, now);
    } else {
      forall ids ensures RestoreSameAfter(t, ids, access, id, key, now) {
        SweepManyStaysBehind(t, t, ids, now);
        RotateAgrees(t, SweepMany(t, ids, now), {}, access, id, true, key, now);
      }
    }
  }

  /**
   * Two rows of one organization: row 0, of owner `a`, was retired; row 1, of another owner or of none, is idle but
   * still stored as active. Restoring row 0 is refused until row 1 is swept.
   */
  lemma {:induction false} NameOfOtherOwnerWaitsForSweep(a: Uuid, b: Option<Uuid>, org: string, name: string, key: Key)
    requires b != Some(a) && key != "old"
    ensures var now := ACTIVE_SPAN;
      var t := map[
        0 := Env(Some(a), Some(org), name, None, true, 1, 0, 0, Some(1), Some(1 + KEPT_SPAN - ACTIVE_SPAN), None,
                 "older"),
        1 := Env(b, Some(org), name, None, true, 1, 0, 0, None, None, Some("old"), "old")];
      var access := Access({a}, {a});
      && WellFormed(t) && RotateRefusal(t, access, 0, true, now).None?
      && Rotate(t, access, 0, true, key, now).1 == Err(NameConflict)
      && Rotate(SweepMany(t, [1], now), access, 0, true, key, now).1 == Ok(key)
  {
    var now := ACTIVE_SPAN;
    var t := map[
      0 := Env(Some(a), Some(org), name, None, true, 1, 0, 0, Some(1), Some(1 + KEPT_SPAN - ACTIVE_SPAN), None,
               "older"),
      1 := Env(b, Some(org), name, None, true, 1, 0, 0, None, None, Some("old"), "old")];
    var access := Access({a}, {a});
    assert Namesake(t, 0, 1) && ActiveOf(t, Some(a), now) == {};
    assert [1][..0] == [] && SweepMany(t, [1], now) == SweepOne(t, 1, now);
    assert ActiveOf(SweepOne(t, 1, now), Some(a), now) == {};
  }

  // ---- the two ways of applying deadlines meet ----

  /** Sweeping every due row leaves exactly the unexpired rows, each storing what the lazy view already showed. */
  lemma FullSweepWritesLogicalView(t: Table, ids: seq<Id>, now: int)
    requires WellFormed(t)
    requires forall id | id in t && (Expired(t[id], now) || (Stored(t[id]) && Idle(t[id], now))) :: id in ids
    ensures var n := SweepMany(t, ids, now);
            forall id :: (id in n <==> id in t && !Expired(t[id], now))
                         && (id in n ==> Show(id, n[id], now) == Show(id, t[id], now)
                                         && n[id].deletedAt == Logical(t[id], now).deletedAt
                                         && n[id].purgeAfter == Logical(t[id], now).purgeAfter)
  {
    var n := SweepMany(t, ids, now);
    forall id ensures (id in n <==> id in t && !Expired(t[id], now))
                      && (id in n ==> Show(id, n[id], now) == Show(id, t[id], now)
                                      && n[id].deletedAt == Logical(t[id], now).deletedAt
                                      && n[id].purgeAfter == Logical(t[id], now).purgeAfter) {
      SweepManyRow(t, ids, id, now);
    }
  }

  // ---- keys ----

  /** The key shown for an environment enters that environment and no other; rotating it locks the old key out. */
  lemma ShownKeyEnters(t: Table, access: Access, id: Id, now: int, newKey: Key, later: int)
    requires WellFormed(t) && ReadKey(t, access, id, now).Ok? && WellFormedKey(t[id].secret) && now <= later
    requires forall other | other in t :: t[other].secret != newKey && t[other].keyHash != Some(newKey)
    ensures var key := ReadKey(t, access, id, now).value;
            && Enter(t, key, now) == Some(id)
            && (Rotate(t, access, id, false, newKey, now).1.Ok? ==>
                  Enter(Rotate(t, access, id, false, newKey, now).0, key, later) == None)
  {
    var key := t[id].secret;
    assert Admits(t, id, key, now);
    assert forall other | Admits(t, other, key, now) :: other == id;
    var n := Rotate(t, access, id, false, newKey, now).0;
    forall other ensures Rotate(t, access, id, false, newKey, now).1.Ok? ==> !Admits(n, other, key, later) {
      if other in t && other != id { assert t[other].keyHash != t[id].keyHash; }
    }
  }
}
