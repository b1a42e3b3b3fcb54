// What accounts let others read, and what the database ends when a custodian changes
// (migrations/0011_custodian_grant_fencing.sql).
module Delegation {
  import opened Wrappers

  type Uuid = string

  /** The active grants by (owner, viewer) and allow-list entries by (Silicon, account), each with who made it. */
  datatype Delegations = Delegations(grants: map<(Uuid, Uuid), Uuid>, allowances: map<(Uuid, Uuid), Uuid>)

  /** A delegation of the account to or by its previous custodian. */
  predicate Fences(pair: (Uuid, Uuid), maker: Uuid, account: Uuid, previous: Uuid) {
    pair.0 == account && (pair.1 == previous || maker == previous)
  }

  /** The trigger on a change of custodian: it acts when there was one and there is now another, or none. */
  function Fenced(d: Delegations, account: Uuid, before: Option<Uuid>, after: Option<Uuid>): Delegations {
    if before.None? || before == after then d else
      Delegations(map g | g in d.grants && !Fences(g, d.grants[g], account, before.value) :: d.grants[g],
                  map a | a in d.allowances && !Fences(a, d.allowances[a], account, before.value) :: d.allowances[a])
  }

  /** Deleting an account ends what it is part of. */
  function Without(d: Delegations, account: Uuid): Delegations {
    Delegations(map g | g in d.grants && g.0 != account && g.1 != account :: d.grants[g],
                map a | a in d.allowances && a.0 != account && a.1 != account :: d.allowances[a])
  }

  function KeeperOf(keepers: map<Uuid, Uuid>, account: Uuid): Option<Uuid> {
    if account in keepers then Some(keepers[account]) else None
  }

  function WithKeeper(keepers: map<Uuid, Uuid>, account: Uuid, keeper: Option<Uuid>): map<Uuid, Uuid> {
    if keeper.Some? then keepers[account := keeper.value] else keepers - {account}
  }

  predicate MayDelegate(keepers: map<Uuid, Uuid>, account: Uuid, maker: Uuid) {
    maker == account || KeeperOf(keepers, account) == Some(maker)
  }

  /** Every active delegation was made by the account it is about or by that account's present custodian. */
  ghost predicate MadeByKeepers(d: Delegations, keepers: map<Uuid, Uuid>) {
    && (forall g | g in d.grants :: MayDelegate(keepers, g.0, d.grants[g]))
    && (forall a | a in d.allowances :: MayDelegate(keepers, a.0, d.allowances[a]))
  }

  /** The trigger is what keeps this so when custodians change. */
  lemma FenceKeepsMade(d: Delegations, keepers: map<Uuid, Uuid>, account: Uuid, after: Option<Uuid>)
    requires MadeByKeepers(d, keepers)
    ensures MadeByKeepers(Fenced(d, account, KeeperOf(keepers, account), after), WithKeeper(keepers, account, after))
  {}

  /** The previous custodian neither reads the account's reminders by its own grant nor has any say left. */
  lemma PreviousKeeperStops(d: Delegations, account: Uuid, before: Uuid, after: Option<Uuid>)
    requires after != Some(before)
    ensures var n := Fenced(d, account, Some(before), after);
      && (account, before) !in n.grants && (account, before) !in n.allowances
      && (forall g | g in n.grants && g.0 == account :: n.grants[g] != before)
      && (forall a | a in n.allowances && a.0 == account :: n.allowances[a] != before)
  {}

  /** Nothing else ends. */
  lemma OthersAreKept(d: Delegations, account: Uuid, before: Option<Uuid>, after: Option<Uuid>, pair: (Uuid, Uuid))
    requires pair.0 != account || before.None? || before == after
    ensures var n := Fenced(d, account, before, after);
      && (pair in d.grants ==> pair in n.grants && n.grants[pair] == d.grants[pair])
      && (pair in d.allowances ==> pair in n.allowances && n.allowances[pair] == d.allowances[pair])
  {}
}
