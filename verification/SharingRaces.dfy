// Grants whose check and insert are separate statements (src/application/sharing.rs, src/infrastructure/sharing.rs).
//
// As in Sharing, the accounts and their custodians stay fixed.
module SharingRaces {
  import opened Wrappers
  import opened Sharing

  /** The tables, and the grants found permissible that are still to be inserted, as (owner, viewer, granter). */
  datatype World = World(state: State, checked: set<(Uuid, Uuid, Uuid)>)

  const START := World(EMPTY, {})

  /** A grant is checked and later inserted; the other operations write in one transaction. */
  datatype Step =
    | Check(actor: Actor, viewer: Uuid, silicon: Option<Uuid>)
    | Insert(owner: Uuid, viewer: Uuid, granter: Uuid)
    | Change(op: Op)

  predicate Enabled(acc: Accounts, w: World, s: Step) {
    match s
    case Check(actor, viewer, silicon) =>
      var managed := ManagedOwner(acc, actor, silicon);
      managed.Ok? && GrantRefusal(acc, w.state, actor, managed.value, viewer).None?
    case Insert(owner, viewer, granter) => (owner, viewer, granter) in w.checked
    case Change(op) => !op.Grant?
  }

  function Next(acc: Accounts, w: World, s: Step): World
    requires Enabled(acc, w, s)
  {
    match s
    case Check(actor, viewer, silicon) =>
      w.(checked := w.checked + {(ManagedOwner(acc, actor, silicon).value, viewer, actor.uuid)})
    case Insert(owner, viewer, granter) => w.(state := Granted(w.state, owner, viewer, granter))
    case Change(op) => w.(state := Do(acc, w.state, op).0)
  }

  predicate IsRun(acc: Accounts, w: World, steps: seq<Step>)
    decreases |steps|
  {
    steps == [] || (Enabled(acc, w, steps[0]) && IsRun(acc, Next(acc, w, steps[0]), steps[1..]))
  }

  function Run(acc: Accounts, w: World, steps: seq<Step>): World
    requires IsRun(acc, w, steps)
    decreases |steps|
  {
    if steps == [] then w else Run(acc, Next(acc, w, steps[0]), steps[1..])
  }

  // ---- one run ----

  /** Grants on record and grants checked could have been made. */
  ghost predicate Sound(acc: Accounts, w: World) {
    && Proper(acc, w.state)
    && forall c | c in w.checked ::
      Manageable(acc, c.0) && c.0 != c.1 && (IsSilicon(acc, c.1) ==> UsableSilicon(acc, c.1))
  }

  lemma StepKeepsSound(acc: Accounts, w: World, s: Step)
    requires Sound(acc, w) && Enabled(acc, w, s)
    ensures Sound(acc, Next(acc, w, s))
  {
    match s
    case Check(actor, _, silicon) => ManagedIsManageable(acc, actor, silicon);
    case Insert(_, _, _) =>
    case Change(op) => StepKeepsProper(acc, w.state, op);
  }

  /** An insert that adds a grant finds it still backed. */
  predicate Supported(acc: Accounts, w: World, s: Step) {
    s.Insert? && (s.owner, s.viewer) !in w.state.grants && IsSilicon(acc, s.viewer)
      && !InCircle(acc, s.owner, s.viewer) ==>
      (s.viewer, s.owner) in w.state.allowances || (s.viewer, s.granter) in w.state.allowances
  }

  lemma StepKeepsJustifiedIff(acc: Accounts, w: World, s: Step)
    requires CirclesAreMutual(acc) && Sound(acc, w) && Justified(acc, w.state) && Enabled(acc, w, s)
    ensures Justified(acc, Next(acc, w, s).state) <==> Supported(acc, w, s)
  {
    match s
    case Check(_, _, _) =>
    case Change(op) => StepKeepsJustified(acc, w.state, op);
    case Insert(owner, viewer, granter) =>
      var n := Next(acc, w, s).state;
      if (owner, viewer) !in w.state.grants { assert Justified(acc, n) ==> Backed(acc, n, (owner, viewer)); }
      forall g | g in w.state.grants ensures Backed(acc, n, g) { assert Backed(acc, w.state, g); }
  }

  predicate JustifiedThroughout(acc: Accounts, w: World, steps: seq<Step>)
    requires IsRun(acc, w, steps)
    decreases |steps|
  {
    Justified(acc, w.state) && (steps != [] ==> JustifiedThroughout(acc, Next(acc, w, steps[0]), steps[1..]))
  }

  predicate AlwaysSupported(acc: Accounts, w: World, steps: seq<Step>)
    requires IsRun(acc, w, steps)
    decreases |steps|
  {
    steps == [] || (Supported(acc, w, steps[0]) && AlwaysSupported(acc, Next(acc, w, steps[0]), steps[1..]))
  }

  /**
   * With mutual circles, grants stay justified throughout a run exactly when every insert finds its allowance in place.
   */
  lemma {:induction false} RunJustifiedIff(acc: Accounts, w: World, steps: seq<Step>)
    requires CirclesAreMutual(acc) && Sound(acc, w) && Justified(acc, w.state) && IsRun(acc, w, steps)
    ensures JustifiedThroughout(acc, w, steps) <==> AlwaysSupported(acc, w, steps)
    decreases |steps|
  {
    if steps != [] {
      var n := Next(acc, w, steps[0]);
      StepKeepsSound(acc, w, steps[0]);
      StepKeepsJustifiedIff(acc, w, steps[0]);
      if Justified(acc, n.state) { RunJustifiedIff(acc, n, steps[1..]); }
    }
  }

  // ---- all runs ----

  /** Every Silicon that can receive a grant is in the circle of every owner whose reminders can be shared. */
  ghost predicate AllInCircle(acc: Accounts) {
    forall owner, viewer | Manageable(acc, owner) && UsableSilicon(acc, viewer) && owner != viewer ::
      InCircle(acc, owner, viewer)
  }

  lemma {:induction false} RunKeepsSound(acc: Accounts, w: World, steps: seq<Step>)
    requires Sound(acc, w) && IsRun(acc, w, steps)
    ensures Sound(acc, Run(acc, w, steps))
    decreases |steps|
  {
    if steps != [] {
      StepKeepsSound(acc, w, steps[0]);
      RunKeepsSound(acc, Next(acc, w, steps[0]), steps[1..]);
    }
  }

  lemma RunFrom(acc: Accounts, w: World, s: Step, rest: seq<Step>)
    requires Enabled(acc, w, s) && IsRun(acc, Next(acc, w, s), rest)
    ensures IsRun(acc, w, [s] + rest) && Run(acc, w, [s] + rest) == Run(acc, Next(acc, w, s), rest)
  {
    assert ([s] + rest)[1..] == rest;
  }

  /** Allow, check, disallow, insert: the grant appears after its allowance is gone. */
  lemma {:induction false} OvertakenGrantIsUnbacked(acc: Accounts, owner: Uuid, viewer: Uuid) returns (steps: seq<Step>)
    requires Manageable(acc, owner) && UsableSilicon(acc, viewer) && owner != viewer && !InCircle(acc, owner, viewer)
    ensures IsRun(acc, START, steps) && !Justified(acc, Run(acc, START, steps).state)
  {
    var me := Actor(viewer, true);
    var granter := owner;
    if !IsSilicon(acc, owner) || acc[owner].status.Deleted? {
      granter :| granter in acc && acc[granter].kind == Some(Carbon) && SignedIn(acc, granter)
        && LooksAfter(acc, granter, owner);
    }
    var allow, disallow := Change(Allow(me, owner, None)), Change(Disallow(me, owner, None));
    var check, insert := Check(Actor(granter, true), viewer, Some(owner)), Insert(owner, viewer, granter);
    var w1 := World(EMPTY.(allowances := {(viewer, owner)}), {});
    var w2 := w1.(checked := {(owner, viewer, granter)});
    var w3 := w2.(state := EMPTY);
    var w4 := w3.(state := EMPTY.(grants := map[(owner, viewer) := granter]));
    assert EMPTY.allowances + {(viewer, owner)} == {(viewer, owner)} && Next(acc, START, allow) == w1;
    assert Next(acc, w1, check) == w2;
    assert Disallowed(acc, w2.state, viewer, owner) == EMPTY && Next(acc, w2, disallow) == w3;
    assert Next(acc, w3, insert) == w4 && !Backed(acc, w4.state, (owner, viewer));
    RunFrom(acc, w3, insert, []);
    RunFrom(acc, w2, disallow, [insert] + []);
    RunFrom(acc, w1, check, [disallow] + ([insert] + []));
    RunFrom(acc, START, allow, [check] + ([disallow] + ([insert] + [])));
    steps := [allow] + ([check] + ([disallow] + ([insert] + [])));
  }

  /** With checks and inserts apart, grants stay justified over all runs exactly where no grant needs an allowance. */
  lemma JustifiedOverAllRacesIff(acc: Accounts)
    ensures (forall steps | IsRun(acc, START, steps) :: Justified(acc, Run(acc, START, steps).state)) <==>
      AllInCircle(acc)
  {
    if AllInCircle(acc) {
      forall steps | IsRun(acc, START, steps) ensures Justified(acc, Run(acc, START, steps).state) {
        RunKeepsSound(acc, START, steps);
      }
    } else {
      var owner, viewer :| Manageable(acc, owner) && UsableSilicon(acc, viewer) && owner != viewer
        && !InCircle(acc, owner, viewer);
      var steps := OvertakenGrantIsUnbacked(acc, owner, viewer);
    }
  }
}
