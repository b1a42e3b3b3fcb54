// Viewer grants and Silicon allow-lists (src/application/sharing.rs, src/infrastructure/sharing.rs).
//
// The accounts and their custodians stay fixed here, and each operation is one atomic step. SharingRaces takes the
// check and the insert of a grant apart.
module Sharing {
  import opened Wrappers

  type Uuid = string

  datatype Kind = Carbon | Silicon
  datatype Status = Active | AccessRemoved | Deleted
  datatype Account = Account(kind: Option<Kind>, custodian: Option<Uuid>, status: Status)
  type Accounts = map<Uuid, Account>

  /** Who asks; a proof may read but not write. */
  datatype Actor = Actor(uuid: Uuid, canWrite: bool)

  datatype Refusal =
    | NotSignedIn | ProofCannotWrite | NotYourSilicon | SiliconIdRequired | NotCustodian
    | AccountNotFound | AccountUnavailable | ToSelf | SiliconNotOpen | NotFound

  /** The active rows: grants by (owner, viewer) with their granter, allowances as (silicon, allowed account). */
  datatype State = State(grants: map<(Uuid, Uuid), Uuid>, allowances: set<(Uuid, Uuid)>)

  const EMPTY := State(map[], {})

  // ---- accounts ----

  predicate IsSilicon(acc: Accounts, x: Uuid) { x in acc && acc[x].kind == Some(Silicon) }

  predicate SignedIn(acc: Accounts, x: Uuid) { x in acc && acc[x].kind.Some? && !acc[x].status.Deleted? }

  /** For a Silicon: itself, its custodian and the custodian's other Silicons; for a Carbon: itself and its Silicons. */
  predicate InCircle(acc: Accounts, me: Uuid, other: Uuid) {
    other in acc &&
    (other == me ||
     (me in acc &&
      ((acc[me].kind == Some(Carbon) && acc[other].custodian == Some(me)) ||
       (acc[me].kind == Some(Silicon) && acc[me].custodian.Some? &&
        (other == acc[me].custodian.value || acc[other].custodian == acc[me].custodian)))))
  }

  function CircleOf(acc: Accounts, me: Uuid): set<Uuid> { set other | other in acc && InCircle(acc, me, other) }

  predicate LooksAfter(acc: Accounts, carbon: Uuid, id: Uuid) {
    id in acc && id != carbon && acc[id].status.Active? && acc[id].kind.Some? && acc[id].custodian == Some(carbon)
  }

  /** The account a sharing change is about. */
  function ManagedOwner(acc: Accounts, actor: Actor, silicon: Option<Uuid>): Result<Uuid, Refusal> {
    if !SignedIn(acc, actor.uuid) then Err(NotSignedIn)
    else if !actor.canWrite then Err(ProofCannotWrite)
    else if acc[actor.uuid].kind == Some(Silicon) then
      if silicon.None? || silicon.value == actor.uuid then Ok(actor.uuid) else Err(NotYourSilicon)
    else if silicon.None? then Err(SiliconIdRequired)
    else if LooksAfter(acc, actor.uuid, silicon.value) then Ok(silicon.value)
    else Err(NotCustodian)
  }

  function ExistingAccount(acc: Accounts, x: Uuid): Option<Refusal> {
    if x !in acc then Some(AccountNotFound)
    else if acc[x].status.Deleted? || acc[x].kind.None? then Some(AccountUnavailable)
    else None
  }

  // ---- operations ----

  function GrantRefusal(acc: Accounts, s: State, actor: Actor, owner: Uuid, viewer: Uuid): Option<Refusal> {
    if ExistingAccount(acc, viewer).Some? then ExistingAccount(acc, viewer)
    else if viewer == owner || viewer == actor.uuid then Some(ToSelf)
    else if IsSilicon(acc, viewer) && viewer !in CircleOf(acc, owner)
            && (viewer, owner) !in s.allowances && (viewer, actor.uuid) !in s.allowances then Some(SiliconNotOpen)
    else None
  }

  function Granted(s: State, owner: Uuid, viewer: Uuid, granter: Uuid): State {
    if (owner, viewer) in s.grants then s else s.(grants := s.grants[(owner, viewer) := granter])
  }

  /** The grants that `allowed`'s allowance made possible are those outside the Silicon's circle it owns or made. */
  predicate EndedByDisallow(acc: Accounts, s: State, silicon: Uuid, allowed: Uuid, g: (Uuid, Uuid))
    requires g in s.grants
  {
    g.1 == silicon && g.0 !in CircleOf(acc, silicon) && (g.0 == allowed || s.grants[g] == allowed)
  }

  function Disallowed(acc: Accounts, s: State, silicon: Uuid, allowed: Uuid): State {
    State(map g | g in s.grants && !EndedByDisallow(acc, s, silicon, allowed, g) :: s.grants[g],
          s.allowances - {(silicon, allowed)})
  }

  datatype Op =
    | Grant(actor: Actor, viewer: Uuid, silicon: Option<Uuid>)
    | Revoke(actor: Actor, viewer: Uuid, silicon: Option<Uuid>)
    | Allow(actor: Actor, account: Uuid, silicon: Option<Uuid>)
    | Disallow(actor: Actor, account: Uuid, silicon: Option<Uuid>)

  /** The new state and, unless refused, whether a row was added or removed. */
  function Do(acc: Accounts, s: State, op: Op): (State, Result<bool, Refusal>) {
    var managed := ManagedOwner(acc, op.actor, op.silicon);
    if managed.Err? then (s, Err(managed.error)) else
      var owner := managed.value;
      match op
      case Grant(actor, viewer, _) =>
        var refusal := GrantRefusal(acc, s, actor, owner, viewer);
        if refusal.Some? then (s, Err(refusal.value))
        else (Granted(s, owner, viewer, actor.uuid), Ok((owner, viewer) !in s.grants))
      case Revoke(_, viewer, _) =>
        if (owner, viewer) in s.grants then (s.(grants := s.grants - {(owner, viewer)}), Ok(true))
        else (s, Err(NotFound))
      case Allow(actor, account, _) =>
        if ExistingAccount(acc, account).Some? then (s, Err(ExistingAccount(acc, account).value))
        else if account == owner || account == actor.uuid then (s, Err(ToSelf))
        else (s.(allowances := s.allowances + {(owner, account)}), Ok((owner, account) !in s.allowances))
      case Disallow(_, account, _) =>
        var n := Disallowed(acc, s, owner, account);
        (n, if (owner, account) in s.allowances then Ok(true) else Err(NotFound))
  }

  function Run(acc: Accounts, s: State, ops: seq<Op>): State {
    if ops == [] then s else Do(acc, Run(acc, s, ops[..|ops| - 1]), ops[|ops| - 1]).0
  }

  /** The two tables, changed in place. */
  class Store {
    var grants: map<(Uuid, Uuid), Uuid>
    var allowances: set<(Uuid, Uuid)>

    constructor ()
      ensures View() == EMPTY
    {
      grants, allowances := map[], {};
    }

    function View(): State
      reads this
    {
      State(grants, allowances)
    }

    method GrantView(acc: Accounts, actor: Actor, viewer: Uuid, silicon: Option<Uuid>)
      returns (added: Result<bool, Refusal>)
      modifies this
      ensures (View(), added) == Do(acc, old(View()), Grant(actor, viewer, silicon))
    {
      var managed := ManagedOwner(acc, actor, silicon);
      if managed.Err? {
        return Err(managed.error);
      }
      var owner := managed.value;
      var fault := ExistingAccount(acc, viewer);
      if fault.Some? {
        return Err(fault.value);
      }
      if viewer == owner || viewer == actor.uuid {
        return Err(ToSelf);
      }
      if acc[viewer].kind == Some(Silicon) {
        var circle := CircleOf(acc, owner);
        if !(viewer in circle || (viewer, owner) in allowances || (viewer, actor.uuid) in allowances) {
          return Err(SiliconNotOpen);
        }
      }
      if (owner, viewer) in grants {
        return Ok(false);
      }
      grants := grants[(owner, viewer) := actor.uuid];
      return Ok(true);
    }

    method RevokeView(acc: Accounts, actor: Actor, viewer: Uuid, silicon: Option<Uuid>)
      returns (ended: Result<bool, Refusal>)
      modifies this
      ensures (View(), ended) == Do(acc, old(View()), Revoke(actor, viewer, silicon))
    {
      var managed := ManagedOwner(acc, actor, silicon);
      if managed.Err? {
        return Err(managed.error);
      }
      if (managed.value, viewer) !in grants {
        return Err(NotFound);
      }
      grants := grants - {(managed.value, viewer)};
      return Ok(true);
    }

    method AllowAccount(acc: Accounts, actor: Actor, account: Uuid, silicon: Option<Uuid>)
      returns (added: Result<bool, Refusal>)
      modifies this
      ensures (View(), added) == Do(acc, old(View()), Allow(actor, account, silicon))
    {
      var managed := ManagedOwner(acc, actor, silicon);
      if managed.Err? {
        return Err(managed.error);
      }
      var fault := ExistingAccount(acc, account);
      if fault.Some? {
        return Err(fault.value);
      }
      if account == managed.value || account == actor.uuid {
        return Err(ToSelf);
      }
      added := Ok((managed.value, account) !in allowances);
      allowances := allowances + {(managed.value, account)};
    }

    method DisallowAccount(acc: Accounts, actor: Actor, account: Uuid, silicon: Option<Uuid>)
      returns (removed: Result<bool, Refusal>)
      modifies this
      ensures (View(), removed) == Do(acc, old(View()), Disallow(actor, account, silicon))
    {
      var managed := ManagedOwner(acc, actor, silicon);
      if managed.Err? {
        return Err(managed.error);
      }
      var owner := managed.value;
      var circle := CircleOf(acc, owner);
      removed := if (owner, account) in allowances then Ok(true) else Err(NotFound);
      allowances := allowances - {(owner, account)};
      grants := map g | g in grants && !(g.1 == owner && g.0 !in circle && (g.0 == account || grants[g] == account)) ::
        grants[g];
      assert grants == Disallowed(acc, old(View()), owner, account).grants;
    }
  }

  // ---- grants need their justification ----

  /** Some account may share this owner's reminders. */
  predicate Manageable(acc: Accounts, owner: Uuid) {
    (IsSilicon(acc, owner) && !acc[owner].status.Deleted?) ||
    exists carbon :: carbon in acc && acc[carbon].kind == Some(Carbon) && SignedIn(acc, carbon)
      && LooksAfter(acc, carbon, owner)
  }

  predicate UsableSilicon(acc: Accounts, x: Uuid) { IsSilicon(acc, x) && !acc[x].status.Deleted? }

  predicate Backed(acc: Accounts, s: State, g: (Uuid, Uuid))
    requires g in s.grants
  {
    IsSilicon(acc, g.1) && !InCircle(acc, g.0, g.1) ==> (g.1, g.0) in s.allowances || (g.1, s.grants[g]) in s.allowances
  }

  /**
   * Every active grant to a Silicon outside the owner's circle is backed by an allowance for the owner or the granter.
   */
  predicate Justified(acc: Accounts, s: State) { forall g | g in s.grants :: Backed(acc, s, g) }

  /** Who could have made the grant: true of every grant on record. */
  ghost predicate Proper(acc: Accounts, s: State) {
    forall g | g in s.grants ::
      Manageable(acc, g.0) && g.0 != g.1 && (IsSilicon(acc, g.1) ==> UsableSilicon(acc, g.1))
  }

  /** Whoever a Silicon counts in its circle, among accounts whose reminders can be shared, counts it too. */
  ghost predicate CirclesAreMutual(acc: Accounts) {
    forall owner, viewer | Manageable(acc, owner) && UsableSilicon(acc, viewer) && owner != viewer
                           && InCircle(acc, viewer, owner) :: InCircle(acc, owner, viewer)
  }

  lemma ManagedIsManageable(acc: Accounts, actor: Actor, silicon: Option<Uuid>)
    requires ManagedOwner(acc, actor, silicon).Ok?
    ensures Manageable(acc, ManagedOwner(acc, actor, silicon).value)
  {
    if acc[actor.uuid].kind != Some(Silicon) {
      assert acc[actor.uuid].kind.value.Carbon?;
      assert acc[actor.uuid].kind == Some(Carbon) && LooksAfter(acc, actor.uuid, silicon.value);
    }
  }

  lemma StepKeepsProper(acc: Accounts, s: State, op: Op)
    requires Proper(acc, s)
    ensures Proper(acc, Do(acc, s, op).0)
  {
    if ManagedOwner(acc, op.actor, op.silicon).Ok? { ManagedIsManageable(acc, op.actor, op.silicon); }
  }

  lemma StepKeepsJustified(acc: Accounts, s: State, op: Op)
    requires Proper(acc, s) && Justified(acc, s) && CirclesAreMutual(acc)
    ensures Justified(acc, Do(acc, s, op).0)
  {}

  lemma {:induction false} RunKeepsJustified(acc: Accounts, ops: seq<Op>)
    requires CirclesAreMutual(acc)
    ensures Proper(acc, Run(acc, EMPTY, ops)) && Justified(acc, Run(acc, EMPTY, ops))
  {
    if ops != [] {
      var before := Run(acc, EMPTY, ops[..|ops| - 1]);
      RunKeepsJustified(acc, ops[..|ops| - 1]);
      StepKeepsProper(acc, before, ops[|ops| - 1]);
      StepKeepsJustified(acc, before, ops[|ops| - 1]);
    }
  }

  /**
   * Allow, grant, disallow: the grant stays because the viewer's circle holds the owner, though not the other way
   * round.
   */
  lemma {:induction false} OneSidedCircleLeavesGrant(acc: Accounts, owner: Uuid, viewer: Uuid) returns (ops: seq<Op>)
    requires Manageable(acc, owner) && UsableSilicon(acc, viewer) && owner != viewer
    requires InCircle(acc, viewer, owner) && !InCircle(acc, owner, viewer)
    ensures !Justified(acc, Run(acc, EMPTY, ops))
  {
    var me := Actor(viewer, true);
    var granter := owner;
    if !IsSilicon(acc, owner) || acc[owner].status.Deleted? {
      granter :| granter in acc && acc[granter].kind == Some(Carbon) && SignedIn(acc, granter)
        && LooksAfter(acc, granter, owner);
    }
    var one := Allow(me, owner, None);
    var two := Grant(Actor(granter, true), viewer, Some(owner));
    var three := Disallow(me, owner, None);
    ops := [one, two, three];
    assert ops[..2] == [one, two] && [one, two][..1] == [one] && [one][..0] == [];
    var s1 := Do(acc, EMPTY, one).0;
    assert s1.allowances == {(viewer, owner)};
    var s2 := Do(acc, s1, two).0;
    assert s2 == State(map[(owner, viewer) := granter], {(viewer, owner)});
    var s3 := Do(acc, s2, three).0;
    assert (owner, viewer) in s3.grants && s3.allowances == {};
    assert !Backed(acc, s3, (owner, viewer));
    assert Run(acc, EMPTY, [one]) == s1;
    assert Run(acc, EMPTY, [one, two]) == s2;
  }

  /** Grants stay justified over every run if and only if circles are mutual. */
  lemma JustifiedOverAllRunsIff(acc: Accounts)
    ensures (forall ops :: Justified(acc, Run(acc, EMPTY, ops))) <==> CirclesAreMutual(acc)
  {
    if CirclesAreMutual(acc) {
      forall ops ensures Justified(acc, Run(acc, EMPTY, ops)) {
        RunKeepsJustified(acc, ops);
      }
    } else {
      var owner, viewer :| Manageable(acc, owner) && UsableSilicon(acc, viewer) && owner != viewer
                           && InCircle(acc, viewer, owner) && !InCircle(acc, owner, viewer);
      var ops := OneSidedCircleLeavesGrant(acc, owner, viewer);
    }
  }

  /** Circles are mutual wherever custodians are Carbons and only Silicons have one. */
  lemma CarbonCustodiansMakeCirclesMutual(acc: Accounts)
    requires forall x | x in acc && acc[x].custodian.Some? ::
               acc[x].kind == Some(Silicon)
                 && (acc[x].custodian.value in acc ==> acc[acc[x].custodian.value].kind == Some(Carbon))
    ensures CirclesAreMutual(acc)
  {}

  /** A Silicon in the care of another Silicon: its circle holds its custodian, whose circle does not hold it back. */
  const KEPT_BY_SILICON: Accounts :=
    map["keeper" := Account(Some(Silicon), None, Active), "kept" := Account(Some(Silicon), Some("keeper"), Active)]

  /** There, allowing the custodian, being granted its reminders and disallowing it leaves the grant without support. */
  lemma {:induction false} KeptSiliconKeepsUnbackedGrant()
    ensures var (kept, keeper) := (Actor("kept", true), Actor("keeper", true));
      var ops := [Allow(kept, "keeper", None), Grant(keeper, "kept", None), Disallow(kept, "keeper", None)];
      !CirclesAreMutual(KEPT_BY_SILICON) && !Justified(KEPT_BY_SILICON, Run(KEPT_BY_SILICON, EMPTY, ops))
  {
    var acc := KEPT_BY_SILICON;
    var (kept, keeper) := (Actor("kept", true), Actor("keeper", true));
    var one, two, three := Allow(kept, "keeper", None), Grant(keeper, "kept", None), Disallow(kept, "keeper", None);
    assert |"kept"| != |"keeper"|;
    assert InCircle(acc, "kept", "keeper") && !InCircle(acc, "keeper", "kept");
    assert Manageable(acc, "keeper") && UsableSilicon(acc, "kept");
    var s1 := Do(acc, EMPTY, one).0;
    assert s1.allowances == {("kept", "keeper")};
    var s2 := Do(acc, s1, two).0;
    assert s2 == State(map[("keeper", "kept") := "keeper"], {("kept", "keeper")});
    var s3 := Do(acc, s2, three).0;
    assert ("keeper", "kept") in s3.grants && s3.allowances == {};
    assert !Backed(acc, s3, ("keeper", "kept"));
    assert [one, two, three][..2] == [one, two] && [one, two][..1] == [one] && [one][..0] == [];
    assert Run(acc, EMPTY, [one]) == s1;
    assert Run(acc, EMPTY, [one, two]) == s2;
  }

  // ---- what an operation does, seen from outside ----

  /** A refused operation changes nothing; only a removal from the list may end grants although it finds no entry. */
  lemma RefusedChangesNothing(acc: Accounts, s: State, op: Op)
    requires Do(acc, s, op).1.Err? && !(op.Disallow? && ManagedOwner(acc, op.actor, op.silicon).Ok?)
    ensures Do(acc, s, op).0 == s
  {}

  /**
   * An accepted grant is active afterwards, its granter the caller if it was not active before; nothing else changes.
   */
  lemma GrantAddsOne(acc: Accounts, s: State, actor: Actor, viewer: Uuid, silicon: Option<Uuid>, owner: Uuid)
    requires Do(acc, s, Grant(actor, viewer, silicon)).1.Ok? && ManagedOwner(acc, actor, silicon) == Ok(owner)
    ensures var (n, added) := Do(acc, s, Grant(actor, viewer, silicon));
      && (owner, viewer) in n.grants && n.grants.Keys == s.grants.Keys + {(owner, viewer)}
      && (forall g | g in s.grants :: n.grants[g] == s.grants[g]) && n.allowances == s.allowances
      && (added.value <==> (owner, viewer) !in s.grants) && (added.value ==> n.grants[(owner, viewer)] == actor.uuid)
  {}

  /** An accepted revocation ends its grant and nothing else. */
  lemma RevokeEndsOne(acc: Accounts, s: State, actor: Actor, viewer: Uuid, silicon: Option<Uuid>, owner: Uuid)
    requires ManagedOwner(acc, actor, silicon) == Ok(owner)
    ensures var (n, ended) := Do(acc, s, Revoke(actor, viewer, silicon));
      && (ended.Ok? <==> (owner, viewer) in s.grants)
      && (owner, viewer) !in n.grants && n.grants.Keys == s.grants.Keys - {(owner, viewer)}
      && (forall g | g in n.grants :: n.grants[g] == s.grants[g]) && n.allowances == s.allowances
  {}

  lemma AllowAddsOne(acc: Accounts, s: State, actor: Actor, account: Uuid, silicon: Option<Uuid>, owner: Uuid)
    requires Do(acc, s, Allow(actor, account, silicon)).1.Ok? && ManagedOwner(acc, actor, silicon) == Ok(owner)
    ensures var (n, added) := Do(acc, s, Allow(actor, account, silicon));
      && (forall a :: a in n.allowances <==> a in s.allowances || a == (owner, account)) && n.grants == s.grants
      && (added.value <==> (owner, account) !in s.allowances)
  {}

  /**
   * Taking an account off the list ends exactly the grants to the Silicon, from outside its circle, it owns or made.
   */
  lemma DisallowEndsBacked(acc: Accounts, s: State, actor: Actor, account: Uuid, silicon: Option<Uuid>, owner: Uuid)
    requires ManagedOwner(acc, actor, silicon) == Ok(owner)
    ensures var (n, removed) := Do(acc, s, Disallow(actor, account, silicon));
      && (removed.Ok? <==> (owner, account) in s.allowances)
      && (forall a :: a in n.allowances <==> a in s.allowances && a != (owner, account))
      && (forall g | g in s.grants ::
            g !in n.grants <==> g.1 == owner && !InCircle(acc, owner, g.0) && account in {g.0, s.grants[g]})
      && (forall g | g in n.grants :: g in s.grants && n.grants[g] == s.grants[g])
  {
    forall g | g in s.grants ensures g.0 in CircleOf(acc, owner) <==> InCircle(acc, owner, g.0) {}
  }

  /** Who may change the sharing of what: a Silicon its own, a Carbon that of the active accounts in its care. */
  lemma ManagedIff(acc: Accounts, actor: Actor, silicon: Option<Uuid>, owner: Uuid)
    ensures ManagedOwner(acc, actor, silicon) == Ok(owner) <==>
      && actor.canWrite && actor.uuid in acc && !acc[actor.uuid].status.Deleted?
      && ((acc[actor.uuid].kind == Some(Silicon) && owner == actor.uuid && silicon in {None, Some(owner)})
          || (acc[actor.uuid].kind == Some(Carbon) && silicon == Some(owner) && owner != actor.uuid && owner in acc
              && acc[owner].status.Active? && acc[owner].kind.Some? && acc[owner].custodian == Some(actor.uuid)))
  {
    if actor.uuid in acc && acc[actor.uuid].kind.Some? {
      assert acc[actor.uuid].kind.value.Carbon? || acc[actor.uuid].kind.value.Silicon?;
    }
  }

  /**
   * Whom a managed account's reminders can be shared with: not itself, not the caller, and a Silicon only if open to
   * it.
   */
  lemma GrantAcceptedIff(acc: Accounts, s: State, actor: Actor, viewer: Uuid, silicon: Option<Uuid>, owner: Uuid)
    requires ManagedOwner(acc, actor, silicon) == Ok(owner)
    ensures Do(acc, s, Grant(actor, viewer, silicon)).1.Ok? <==>
      && viewer in acc && !acc[viewer].status.Deleted? && acc[viewer].kind.Some? && viewer !in {owner, actor.uuid}
      && (acc[viewer].kind == Some(Carbon) || InCircle(acc, owner, viewer)
          || (viewer, owner) in s.allowances || (viewer, actor.uuid) in s.allowances)
  {
    if viewer in acc && acc[viewer].kind.Some? {
      assert acc[viewer].kind.value.Carbon? || acc[viewer].kind.value.Silicon?;
      assert viewer in CircleOf(acc, owner) <==> InCircle(acc, owner, viewer);
    }
  }

  /** An account is allowed exactly when it is one that can act, other than the Silicon and whoever allows it. */
  lemma AllowAcceptedIff(acc: Accounts, s: State, actor: Actor, account: Uuid, silicon: Option<Uuid>, owner: Uuid)
    requires ManagedOwner(acc, actor, silicon) == Ok(owner)
    ensures Do(acc, s, Allow(actor, account, silicon)).1.Ok? <==>
      account in acc && !acc[account].status.Deleted? && acc[account].kind.Some? && account !in {owner, actor.uuid}
  {}

  /** A Carbon's circle is itself and its Silicons, and each of these has that same circle. */
  lemma CirclesAreShared(acc: Accounts, carbon: Uuid)
    requires carbon in acc && acc[carbon].kind == Some(Carbon)
    ensures forall x :: x in CircleOf(acc, carbon) <==> x == carbon || (x in acc && acc[x].custodian == Some(carbon))
    ensures forall x | IsSilicon(acc, x) && acc[x].custodian == Some(carbon) ::
      CircleOf(acc, x) == CircleOf(acc, carbon)
  {}

  /** A Silicon without a custodian, and an account that is not known yet, is alone in its circle. */
  lemma OthersAreAlone(acc: Accounts, x: Uuid)
    requires x in acc && acc[x].kind != Some(Carbon) && acc[x].custodian.None?
    ensures CircleOf(acc, x) == {x}
  {}

  // ---- which grants are active after a run ----

  /** The operation at `k` was accepted and made the grant, by `granter`. */
  predicate Makes(acc: Accounts, ops: seq<Op>, k: nat, g: (Uuid, Uuid), granter: Uuid)
    requires k < |ops|
  {
    var op := ops[k];
    op.Grant? && ManagedOwner(acc, op.actor, op.silicon) == Ok(g.0) && op.viewer == g.1 && op.actor.uuid == granter
    && Do(acc, Run(acc, EMPTY, ops[..k]), op).1 == Ok(true)
  }

  /**
   * A revocation of the grant, or the removal of the owner or the granter from the viewer's allow-list, if that counts.
   */
  predicate Ends(acc: Accounts, op: Op, g: (Uuid, Uuid), granter: Uuid) {
    || (op.Revoke? && ManagedOwner(acc, op.actor, op.silicon) == Ok(g.0) && op.viewer == g.1)
    || (op.Disallow? && ManagedOwner(acc, op.actor, op.silicon) == Ok(g.1) && op.account in {g.0, granter}
        && !InCircle(acc, g.1, g.0))
  }

  predicate MadeAndNotEnded(acc: Accounts, ops: seq<Op>, k: nat, g: (Uuid, Uuid), granter: Uuid)
    requires k < |ops|
  {
    Makes(acc, ops, k, g, granter) && forall j | k < j < |ops| :: !Ends(acc, ops[j], g, granter)
  }

  lemma StepGranted(acc: Accounts, s: State, op: Op, g: (Uuid, Uuid), granter: Uuid)
    ensures var n := Do(acc, s, op).0;
      (g in n.grants && n.grants[g] == granter) <==>
        (if g in s.grants then s.grants[g] == granter && !Ends(acc, op, g, granter)
         else op.Grant? && ManagedOwner(acc, op.actor, op.silicon) == Ok(g.0) && op.viewer == g.1
              && op.actor.uuid == granter && Do(acc, s, op).1 == Ok(true))
  {
    if op.Disallow? && g in s.grants && ManagedOwner(acc, op.actor, op.silicon).Ok? {
      DisallowEndsBacked(acc, s, op.actor, op.account, op.silicon, ManagedOwner(acc, op.actor, op.silicon).value);
    }
  }

  /**
   * After any run, a grant by someone is active exactly when an accepted request of theirs made it and nothing since
   * has revoked it or removed the allowance it could have rested on.
   */
  lemma {:induction false} ActiveIffMadeAndNotEnded(acc: Accounts, ops: seq<Op>, g: (Uuid, Uuid), granter: Uuid)
    ensures (g in Run(acc, EMPTY, ops).grants && Run(acc, EMPTY, ops).grants[g] == granter) <==>
            exists k | 0 <= k < |ops| :: MadeAndNotEnded(acc, ops, k, g, granter)
  {
    if ops != [] {
      var n := |ops| - 1;
      var before := ops[..n];
      var s := Run(acc, EMPTY, before);
      ActiveIffMadeAndNotEnded(acc, before, g, granter);
      StepGranted(acc, s, ops[n], g, granter);
      assert forall k | 0 <= k <= n :: ops[..k] == before[..k];
      assert forall k | 0 <= k < n :: Makes(acc, ops, k, g, granter) <==> Makes(acc, before, k, g, granter);
      forall k | 0 <= k < n
        ensures MadeAndNotEnded(acc, ops, k, g, granter) <==>
                MadeAndNotEnded(acc, before, k, g, granter) && !Ends(acc, ops[n], g, granter)
      {
        assert forall j | 0 <= j < n :: before[j] == ops[j];
      }
      assert MadeAndNotEnded(acc, ops, n, g, granter) <==> Makes(acc, ops, n, g, granter);
    }
  }
}
