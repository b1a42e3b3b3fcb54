// Linking legacy principals to accounts from a mapping file (src/infrastructure/identity_links.rs).
module IdentityLinks {
  import opened Wrappers
  import opened Delegation
  import TestEnvironments

  type Key = nat
  type Account = string

  datatype Kind = Carbon | Silicon
  datatype Origin = SignedIn | IdentityLink
  datatype KeyRow = KeyRow(account: Account, origin: Origin)

  /** What Remind keeps of an account; custodians by uuid and id. */
  datatype AccountRow = AccountRow(kind: Option<Kind>, publicId: string, custodian: Option<(Account, string)>)

  /** What was found out about an account; an id or custodian that is missing or unreadable is empty. */
  datatype Facts = Facts(kind: Kind, publicId: string, custodian: Option<(Account, string)>)

  /** An account lookup: its facts, a refusal, or no answer at all. */
  datatype Lookup = Found(facts: Facts) | NotActive | Unanswered

  /** The link table, the storage keys of accounts, the accounts and what they delegate. */
  datatype State = State(links: map<Key, Account>, keys: map<Key, KeyRow>, accounts: map<Account, AccountRow>,
                         delegations: Delegations)

  /** A test environment: the storage key of its creator if it has one, and whether it is stored as active. */
  datatype Environment = Environment(creator: Option<Key>, managed: bool, stored: bool, name: string,
                                     owner: Option<Account>)

  datatype Testing = Absent | Reachable | Down

  /** A run ends without a report when a lookup stays unanswered or a database refuses a write. */
  datatype Failure = Production | TestingDatabase

  datatype Principal = Principal(key: Key, iamKind: Option<Kind>)

  /** One line of the file; without an account it removes the link. */
  datatype Entry = Entry(line: nat, principal: string, account: Option<Account>)

  /** What a run looks up: principals, retired account ids, and the facts of an account or a refusal. */
  datatype World = World(resolve: string -> Option<Principal>, retired: set<Account>, facts: (Key, Account) -> Lookup)

  datatype Reason =
    | UnknownPrincipal | DuplicatePrincipal | Retired | DuplicateAccount | AlreadyLinked
    | SignedInKey | NoActiveAccount | KindMismatch
  datatype Fault = Fault(line: nat, reason: Reason)

  datatype Report = Report(committed: bool, linked: seq<(Key, Account)>, kept: nat, unlinked: seq<Key>,
                           refused: seq<Fault>,
                           environments: Option<nat>)

  // ---- specification ----

  predicate Resolves(w: World, es: seq<Entry>) { forall i | 0 <= i < |es| :: w.resolve(es[i].principal).Some? }

  function KeyOf(w: World, e: Entry): Key
    requires w.resolve(e.principal).Some?
  {
    w.resolve(e.principal).value.key
  }

  predicate DistinctKeys(w: World, es: seq<Entry>)
    requires Resolves(w, es)
  {
    forall i, j | 0 <= i < j < |es| :: KeyOf(w, es[i]) != KeyOf(w, es[j])
  }

  predicate DistinctAccounts(es: seq<Entry>) {
    forall i, j | 0 <= i < j < |es| && es[i].account.Some? :: es[i].account != es[j].account
  }

  predicate LinkedElsewhere(links: map<Key, Account>, key: Key, a: Account) {
    exists k | k in links :: links[k] == a && k != key
  }

  predicate FreeAccounts(w: World, links: map<Key, Account>, es: seq<Entry>)
    requires Resolves(w, es)
  {
    forall i | 0 <= i < |es| && es[i].account.Some? ::
      es[i].account.value !in w.retired && !LinkedElsewhere(links, KeyOf(w, es[i]), es[i].account.value)
  }

  /**
   * The file as a whole makes sense: each principal once, each account for at most one principal, old links included.
   */
  predicate Valid(w: World, links: map<Key, Account>, es: seq<Entry>) {
    Resolves(w, es) && DistinctKeys(w, es) && DistinctAccounts(es) && FreeAccounts(w, links, es)
  }

  /** Why one line cannot be applied. */
  function Refusal(w: World, s: State, e: Entry): Option<Reason>
    requires w.resolve(e.principal).Some?
  {
    var p := w.resolve(e.principal).value;
    if e.account.None? then None
    else if p.key in s.keys && s.keys[p.key].origin.SignedIn? then Some(SignedInKey)
    else
      match w.facts(p.key, e.account.value)
      case Unanswered => None
      case NotActive => Some(NoActiveAccount)
      case Found(facts) => if p.iamKind.Some? && p.iamKind.value != facts.kind then Some(KindMismatch) else None
  }

  function Unlinked(s: State, key: Key): State {
    s.(links := s.links - {key},
       keys := if key in s.keys && s.keys[key].origin.IdentityLink? then s.keys - {key} else s.keys)
  }

  /** A new row, or the row with what was unknown filled in and newer ids taken over; only Silicons have a custodian. */
  function Upserted(r: Option<AccountRow>, f: Facts): AccountRow {
    var custodian := if f.kind.Silicon? then f.custodian else None;
    match r
    case None => AccountRow(Some(f.kind), f.publicId, custodian)
    case Some(row) =>
      AccountRow(if row.kind.Some? then row.kind else Some(f.kind),
                 if f.publicId == "" then row.publicId else f.publicId,
                 if custodian.Some? then custodian else row.custodian)
  }

  function RowOf(s: State, a: Account): Option<AccountRow> { if a in s.accounts then Some(s.accounts[a]) else None }

  function CustodianOf(r: Option<AccountRow>): Option<Account> {
    if r.Some? && r.value.custodian.Some? then Some(r.value.custodian.value.0) else None
  }

  /** The table's constraint: only Silicons have a custodian. A row of unknown kind passes it. */
  predicate Fits(r: AccountRow) { r.custodian.Some? ==> r.kind != Some(Carbon) }

  /** The line ends the run: nobody answers for its account, or the account's row would break the constraint. */
  predicate Stops(w: World, s: State, e: Entry)
    requires w.resolve(e.principal).Some?
  {
    e.account.Some? && Refusal(w, s, e).None? &&
    match w.facts(KeyOf(w, e), e.account.value)
    case Unanswered => true
    case NotActive => false
    case Found(facts) => !Fits(Upserted(RowOf(s, e.account.value), facts))
  }

  /** Writes the account, with the trigger on its custodian, then the link and the key. */
  function Linked(s: State, key: Key, a: Account, f: Facts): State {
    var row := Upserted(RowOf(s, a), f);
    State(s.links[key := a],
          if key in s.keys && s.keys[key].origin.SignedIn? then s.keys else s.keys[key := KeyRow(a, IdentityLink)],
          s.accounts[a := row],
          Fenced(s.delegations, a, CustodianOf(RowOf(s, a)), CustodianOf(Some(row))))
  }

  predicate Applies(w: World, s: State, e: Entry)
    requires w.resolve(e.principal).Some?
  {
    e.account.Some? && Refusal(w, s, e).None? && w.facts(KeyOf(w, e), e.account.value).Found?
  }

  function Applied(w: World, s: State, e: Entry): State
    requires w.resolve(e.principal).Some?
  {
    if e.account.None? then Unlinked(s, KeyOf(w, e))
    else if Applies(w, s, e) then Linked(s, KeyOf(w, e), e.account.value, w.facts(KeyOf(w, e), e.account.value).facts)
    else s
  }

  function AppliedAll(w: World, s: State, es: seq<Entry>): State
    requires Resolves(w, es)
  {
    if es == [] then s else Applied(w, AppliedAll(w, s, es[..|es| - 1]), es[|es| - 1])
  }

  predicate Clean(w: World, s: State, es: seq<Entry>)
    requires Resolves(w, es)
  {
    forall i | 0 <= i < |es| :: Refusal(w, s, es[i]).None?
  }

  predicate Halts(w: World, s: State, es: seq<Entry>)
    requires Resolves(w, es)
  {
    exists i | 0 <= i < |es| :: Stops(w, s, es[i])
  }

  /** A run commits exactly when the whole file is valid, no line is refused and none ends the run. */
  predicate Commits(w: World, s: State, es: seq<Entry>) { Valid(w, s.links, es) && Clean(w, s, es) && !Halts(w, s, es) }

  function Run(w: World, s: State, es: seq<Entry>, dryRun: bool): State {
    if !dryRun && Commits(w, s, es) then AppliedAll(w, s, es) else s
  }

  /** The account a storage key was linked to before. */
  function Previous(s: State, key: Key): Option<Account> {
    if key in s.keys && s.keys[key].origin.IdentityLink? then Some(s.keys[key].account) else None
  }

  /** The link a line makes or re-points, the link a line removes, and whether it keeps one. */
  function LinkedWith(w: World, s: State, e: Entry): seq<(Key, Account)>
    requires w.resolve(e.principal).Some?
  {
    if e.account.Some? && Refusal(w, s, e).None? && Previous(s, KeyOf(w, e)) != e.account
    then [(KeyOf(w, e), e.account.value)] else []
  }

  function UnlinkedWith(w: World, s: State, e: Entry): seq<Key>
    requires w.resolve(e.principal).Some?
  {
    if e.account.None? && Previous(s, KeyOf(w, e)).Some? then [KeyOf(w, e)] else []
  }

  function KeptWith(w: World, s: State, e: Entry): nat
    requires w.resolve(e.principal).Some?
  {
    if e.account.Some? && Refusal(w, s, e).None? && Previous(s, KeyOf(w, e)) == e.account then 1 else 0
  }

  /** The same for a whole file, in file order. */
  function LinkedBy(w: World, s: State, es: seq<Entry>): seq<(Key, Account)>
    requires Resolves(w, es)
  {
    if es == [] then [] else
      LinkedBy(w, s, es[..|es| - 1]) + LinkedWith(w, AppliedAll(w, s, es[..|es| - 1]), es[|es| - 1])
  }

  function UnlinkedBy(w: World, s: State, es: seq<Entry>): seq<Key>
    requires Resolves(w, es)
  {
    if es == [] then [] else
      UnlinkedBy(w, s, es[..|es| - 1]) + UnlinkedWith(w, AppliedAll(w, s, es[..|es| - 1]), es[|es| - 1])
  }

  function KeptBy(w: World, s: State, es: seq<Entry>): nat
    requires Resolves(w, es)
  {
    if es == [] then 0 else
      KeptBy(w, s, es[..|es| - 1]) + KeptWith(w, AppliedAll(w, s, es[..|es| - 1]), es[|es| - 1])
  }

  /** The links in force after the file's lines: made or kept. */
  function LinksOf(w: World, s: State, es: seq<Entry>): map<Key, Account>
    requires Resolves(w, es)
  {
    if es == [] then map[] else
      var (before, e) := (LinksOf(w, s, es[..|es| - 1]), es[|es| - 1]);
      if e.account.Some? && Refusal(w, s, e).None? then before[KeyOf(w, e) := e.account.value] else before
  }

  /** Legacy environments go to the account their creator is linked to. */
  function Owned(e: Environment, links: map<Key, Account>): Environment {
    if e.managed && e.creator.Some? && e.creator.value in links then e.(owner := Some(links[e.creator.value])) else e
  }

  /** In the unique index on owner and name. */
  predicate Indexed(e: Environment) { e.stored && e.managed && e.owner.Some? }

  predicate NameClash(envs: map<nat, Environment>) {
    exists x, y | x in envs && y in envs ::
      x != y && Indexed(envs[x]) && Indexed(envs[y]) && envs[x].owner == envs[y].owner && envs[x].name == envs[y].name
  }

  /** The links carried over once the turn of `last` has come; they are taken in the order of their keys. */
  function UpTo(links: map<Key, Account>, last: Key): map<Key, Account> { map k | k in links && k <= last :: links[k] }

  /** No step along the way makes two environments stored as active share owner and name. */
  predicate StepsFree(envs: map<nat, Environment>, links: map<Key, Account>) {
    forall k | k in links :: !NameClash(OwnedAll(envs, UpTo(links, k)))
  }

  predicate CarriesOver(testing: Testing, envs: map<nat, Environment>, links: map<Key, Account>) {
    testing.Absent? || (testing.Reachable? && StepsFree(envs, links))
  }

  function OwnedAll(envs: map<nat, Environment>, links: map<Key, Account>): map<nat, Environment> {
    map x | x in envs :: Owned(envs[x], links)
  }

  function Moved(envs: map<nat, Environment>, links: map<Key, Account>): set<nat> {
    set x | x in envs && Owned(envs[x], links) != envs[x]
  }

  // ---- the run ----

  class Directory {
    var links: map<Key, Account>
    var keys: map<Key, KeyRow>
    var accounts: map<Account, AccountRow>
    var delegations: Delegations
    var environments: map<nat, Environment>

    constructor (s: State, envs: map<nat, Environment>)
      ensures View() == s && environments == envs
    {
      links, keys, accounts, delegations, environments := s.links, s.keys, s.accounts, s.delegations, envs;
    }

    function View(): State
      reads this
    {
      State(links, keys, accounts, delegations)
    }

    /** Resolves aliases before writing, so that no later line silently replaces an earlier one. */
    method ValidateMappings(w: World, es: seq<Entry>) returns (errors: seq<Fault>)
      ensures errors == [] <==> Valid(w, links, es)
    {
      errors := [];
      var seen: set<Key>, destinations: set<Account> := {}, {};
      var i := 0;
      while i < |es|
        invariant 0 <= i <= |es|
        invariant errors == [] <==> Valid(w, links, es[..i])
        invariant errors == [] ==> Seen(w, es[..i], seen, destinations)
      {
        var e := es[i];
        assert es[..i + 1] == es[..i] + [e];
        ValidWithOneMore(w, links, es[..i], e);
        ghost var known, taken := seen, destinations;
        var p := w.resolve(e.principal);
        if p.None? {
          errors := errors + [Fault(e.line, UnknownPrincipal)];
        } else {
          if p.value.key in seen {
            errors := errors + [Fault(e.line, DuplicatePrincipal)];
          }
          seen := seen + {p.value.key};
          if e.account.Some? {
            if e.account.value in w.retired {
              errors := errors + [Fault(e.line, Retired)];
            } else {
              if e.account.value in destinations {
                errors := errors + [Fault(e.line, DuplicateAccount)];
              }
              destinations := destinations + {e.account.value};
              if LinkedElsewhere(links, p.value.key, e.account.value) {
                errors := errors + [Fault(e.line, AlreadyLinked)];
              }
            }
          }
          if errors == [] { SeenWithOneMore(w, es[..i], e, known, taken); }
        }
        i := i + 1;
      }
      assert es[..i] == es;
    }

    /**
     * Every line in one transaction: one refused line, a line that ends the run, or a dry run rolls all of it back.
     * Test environments follow in a second transaction, whose failure leaves the first committed.
     */
    method LinkIdentities(w: World, es: seq<Entry>, dryRun: bool, testing: Testing)
      returns (outcome: Result<Report, Failure>)
      requires !NameClash(environments)
      modifies this
      ensures View() == Run(w, old(View()), es, dryRun)
      ensures environments == EnvironmentsAfter(w, old(View()), es, dryRun, testing, old(environments))
      ensures !NameClash(environments)
      ensures !Valid(w, old(links), es) ==> outcome.Ok? && outcome.value.refused != []
      ensures Valid(w, old(links), es) ==>
        && (outcome == Err(Production) <==> Halts(w, old(View()), es))
        && (outcome == Err(TestingDatabase) <==>
              !Halts(w, old(View()), es) && !CarriesOver(testing, old(environments), LinksOf(w, old(View()), es)))
      ensures outcome.Ok? ==>
        && outcome.value.committed == (!dryRun && Commits(w, old(View()), es))
        && (outcome.value.refused == [] <==> Commits(w, old(View()), es))
      ensures outcome.Ok? && Valid(w, old(links), es) ==>
        && outcome.value.linked == LinkedBy(w, old(View()), es)
        && outcome.value.unlinked == UnlinkedBy(w, old(View()), es)
        && outcome.value.kept == KeptBy(w, old(View()), es)
        && outcome.value.environments ==
             if testing.Reachable? then Some(|Moved(old(environments), LinksOf(w, old(View()), es))|) else None
    {
      var errors := ValidateMappings(w, es);
      if errors != [] {
        return Ok(Report(false, [], 0, [], errors, None));
      }
      var halted, working, applied, report := ApplyEntries(w, View(), es);
      if halted {
        return Err(Production);
      }
      if !dryRun && report.refused == [] {
        links, keys, accounts, delegations := working.links, working.keys, working.accounts, working.delegations;
        report := report.(committed := true);
      }
      outcome := CarryOver(testing, applied, report);
    }

    /** The second transaction, and the run's report. */
    method CarryOver(testing: Testing, applied: map<Key, Account>, report: Report)
      returns (outcome: Result<Report, Failure>)
      requires !NameClash(environments) && report.environments.None?
      modifies this`environments
      ensures outcome == if !CarriesOver(testing, old(environments), applied) then Err(TestingDatabase) else
        Ok(report.(environments := if testing.Reachable? then Some(|Moved(old(environments), applied)|) else None))
      ensures environments == if testing.Reachable? && report.committed && StepsFree(old(environments), applied)
        then OwnedAll(old(environments), applied) else old(environments)
      ensures !NameClash(environments)
    {
      match testing
      case Absent => return Ok(report);
      case Down => return Err(TestingDatabase);
      case Reachable =>
        var changed := LinkTestEnvironments(applied, !report.committed);
        return if changed.Some? then Ok(report.(environments := changed)) else Err(TestingDatabase);
    }

    /**
     * Sets the owner of legacy test environments whose creator was linked, and counts them; a name clash undoes it all.
     */
    method LinkTestEnvironments(applied: map<Key, Account>, rollBack: bool) returns (changed: Option<nat>)
      requires !NameClash(environments)
      modifies this`environments
      ensures changed.Some? <==> StepsFree(old(environments), applied)
      ensures environments == if rollBack || changed.None? then old(environments)
        else OwnedAll(old(environments), applied)
      ensures changed.Some? ==> changed.value == |Moved(old(environments), applied)|
      ensures !NameClash(environments)
    {
      var working, count := CarryAll(environments, applied);
      if !rollBack && count.Some? {
        environments := working;
      }
      return count;
    }
  }

  method ApplyEntries(w: World, s: State, es: seq<Entry>)
    returns (halted: bool, working: State, applied: map<Key, Account>, report: Report)
    requires Valid(w, s.links, es)
    ensures halted <==> Halts(w, s, es)
    ensures !halted ==> AppliedTo(w, s, es, working, applied, report)
  {
    halted, report, working, applied := false, Report(false, [], 0, [], [], None), s, map[];
    var i := 0;
    while i < |es|
      invariant 0 <= i <= |es| && AppliedTo(w, s, es[..i], working, applied, report)
    {
      var e := es[i];
      if Stops(w, working, e) {
        StopsAt(w, s, es, i, working);
        return true, working, applied, report;
      }
      var n, next := ApplyEntry(w, working, e, report);
      var now := if e.account.Some? && Refusal(w, working, e).None? then applied[KeyOf(w, e) := e.account.value]
        else applied;
      OneMoreApplied(w, s, es, i, working, applied, report, n, now, next);
      working, applied, report := n, now, next;
      i := i + 1;
    }
    assert es[..i] == es;
  }

  /** One update a link, in the order of the keys, until one fails. */
  method CarryAll(envs: map<nat, Environment>, links: map<Key, Account>)
    returns (working: map<nat, Environment>, changed: Option<nat>)
    requires !NameClash(envs)
    ensures changed.Some? <==> StepsFree(envs, links)
    ensures changed.Some? ==>
      working == OwnedAll(envs, links) && changed.value == |Moved(envs, links)| && !NameClash(working)
  {
    var todo := links.Keys;
    var count: nat := 0;
    working := envs;
    NothingDone(envs, links);
    while todo != {}
      invariant todo <= links.Keys && CarriedTo(envs, links, todo, working, count)
      decreases |todo|
    {
      var k := TestEnvironments.Least(todo);
      var n, hit := CarryOne(working, k, links[k]);
      OneMoreCarried(envs, links, todo, working, count, k, hit, n);
      count, working, todo := count + |hit|, n, todo - {k};
      if NameClash(working) {
        return working, None;
      }
    }
    AllDone(envs, links, working, count);
    return working, Some(count);
  }

  method CarryOne(envs: map<nat, Environment>, k: Key, a: Account) returns (n: map<nat, Environment>, hit: set<nat>)
    ensures hit == set x | x in envs && envs[x].managed && envs[x].creator == Some(k) && envs[x].owner != Some(a)
    ensures n == map x | x in envs :: if x in hit then envs[x].(owner := Some(a)) else envs[x]
  {
    hit := set x | x in envs && envs[x].managed && envs[x].creator == Some(k) && envs[x].owner != Some(a);
    n := map x | x in envs :: if x in hit then envs[x].(owner := Some(a)) else envs[x];
  }

  function CarriedLinks(links: map<Key, Account>, todo: set<Key>): map<Key, Account> {
    map k | k in links && k !in todo :: links[k]
  }

  /** Part of the links have been carried over, in order and without a clash. */
  ghost predicate CarriedTo(envs: map<nat, Environment>, links: map<Key, Account>, todo: set<Key>,
                            working: map<nat, Environment>, count: nat) {
    && (forall j, k | j in links && j !in todo && k in todo :: j < k)
    && working == OwnedAll(envs, CarriedLinks(links, todo)) && count == |Moved(envs, CarriedLinks(links, todo))|
    && !NameClash(working)
    && forall k | k in links && k !in todo :: !NameClash(OwnedAll(envs, UpTo(links, k)))
  }

  lemma NothingDone(envs: map<nat, Environment>, links: map<Key, Account>)
    requires !NameClash(envs)
    ensures CarriedTo(envs, links, links.Keys, envs, 0)
  {
    assert CarriedLinks(links, links.Keys) == map[] && OwnedAll(envs, map[]) == envs && Moved(envs, map[]) == {};
  }

  lemma AllDone(envs: map<nat, Environment>, links: map<Key, Account>, working: map<nat, Environment>, count: nat)
    requires CarriedTo(envs, links, {}, working, count)
    ensures StepsFree(envs, links) && working == OwnedAll(envs, links) && count == |Moved(envs, links)|
      && !NameClash(working)
  {
    assert CarriedLinks(links, {}) == links;
  }

  lemma OneMoreCarried(envs: map<nat, Environment>, links: map<Key, Account>, todo: set<Key>,
                       working: map<nat, Environment>, count: nat, k: Key, hit: set<nat>, n: map<nat, Environment>)
    requires CarriedTo(envs, links, todo, working, count) && todo <= links.Keys && k in todo
      && forall j | j in todo :: k <= j
    requires hit == set x | x in working && working[x].managed && working[x].creator == Some(k)
      && working[x].owner != Some(links[k])
    requires n == map x | x in working :: if x in hit then working[x].(owner := Some(links[k])) else working[x]
    ensures NameClash(n) ==> !StepsFree(envs, links)
    ensures !NameClash(n) ==> CarriedTo(envs, links, todo - {k}, n, count + |hit|)
  {
    var done := CarriedLinks(links, todo);
    NextLink(links, todo, k);
    OneMoreOwned(envs, done, k, links[k], hit);
    OneMoreMoved(envs, done, k, links[k], hit);
    CarriedFurther(envs, links, todo, working, count, k, n, count + |hit|);
  }

  lemma CarriedFurther(envs: map<nat, Environment>, links: map<Key, Account>, todo: set<Key>,
                       working: map<nat, Environment>, before: nat, k: Key, n: map<nat, Environment>, count: nat)
    requires CarriedTo(envs, links, todo, working, before) && k in links && k in todo && forall j | j in todo :: k <= j
    requires UpTo(links, k) == CarriedLinks(links, todo - {k})
    requires n == OwnedAll(envs, UpTo(links, k)) && count == |Moved(envs, UpTo(links, k))|
    ensures NameClash(n) ==> !StepsFree(envs, links)
    ensures !NameClash(n) ==> CarriedTo(envs, links, todo - {k}, n, count)
  {}

  lemma NextLink(links: map<Key, Account>, todo: set<Key>, k: Key)
    requires (forall j, k | j in links && j !in todo && k in todo :: j < k) && todo <= links.Keys
    requires k in todo && forall j | j in todo :: k <= j
    ensures k !in CarriedLinks(links, todo)
    ensures UpTo(links, k) == CarriedLinks(links, todo)[k := links[k]] == CarriedLinks(links, todo - {k})
  {}

  function EnvironmentsAfter(w: World, s: State, es: seq<Entry>, dryRun: bool, testing: Testing,
                             envs: map<nat, Environment>)
    : map<nat, Environment>
  {
    if testing.Reachable? && !dryRun && Commits(w, s, es) && StepsFree(envs, LinksOf(w, s, es))
    then OwnedAll(envs, LinksOf(w, s, es)) else envs
  }

  lemma OneMoreOwned(envs: map<nat, Environment>, done: map<Key, Account>, k: Key, a: Account, hit: set<nat>)
    requires k !in done
    requires var w := OwnedAll(envs, done);
      hit == set x | x in w && w[x].managed && w[x].creator == Some(k) && w[x].owner != Some(a)
    ensures var w := OwnedAll(envs, done);
      OwnedAll(envs, done[k := a]) == map x | x in w :: if x in hit then w[x].(owner := Some(a)) else w[x]
  {
    var w, n := OwnedAll(envs, done), done[k := a];
    forall x | x in envs ensures Owned(envs[x], n) == if x in hit then w[x].(owner := Some(a)) else w[x] {
      OneOwned(envs[x], done, k, a);
    }
    assert OwnedAll(envs, n) == map x | x in w :: if x in hit then w[x].(owner := Some(a)) else w[x];
  }

  lemma OneMoreMoved(envs: map<nat, Environment>, done: map<Key, Account>, k: Key, a: Account, hit: set<nat>)
    requires k !in done
    requires var w := OwnedAll(envs, done);
      hit == set x | x in w && w[x].managed && w[x].creator == Some(k) && w[x].owner != Some(a)
    ensures |Moved(envs, done[k := a])| == |Moved(envs, done)| + |hit|
  {
    forall x | x in envs
      ensures x in Moved(envs, done[k := a]) <==> x in Moved(envs, done) || x in hit
      ensures x !in Moved(envs, done) || x !in hit
    {
      OneMoved(envs[x], done, k, a);
    }
    assert Moved(envs, done[k := a]) == Moved(envs, done) + hit && Moved(envs, done) !! hit;
  }

  lemma OneOwned(e: Environment, done: map<Key, Account>, k: Key, a: Account)
    requires k !in done
    ensures e.managed && e.creator == Some(k) ==> Owned(e, done) == e && Owned(e, done[k := a]) == e.(owner := Some(a))
    ensures !(e.managed && e.creator == Some(k)) ==> Owned(e, done[k := a]) == Owned(e, done)
    ensures Owned(e, done).managed == e.managed && Owned(e, done).creator == e.creator
  {}

  lemma OneMoved(e: Environment, done: map<Key, Account>, k: Key, a: Account)
    requires k !in done
    ensures var m := Owned(e, done);
      var hit := m.managed && m.creator == Some(k) && m.owner != Some(a);
      (Owned(e, done[k := a]) != e <==> m != e || hit) && (hit ==> m == e)
  {
    OneOwned(e, done, k, a);
  }

  /** What a run holds once it has gone through these lines. */
  ghost predicate AppliedTo(w: World, s: State, es: seq<Entry>, working: State, applied: map<Key, Account>,
                            report: Report)
    requires Resolves(w, es)
  {
    && !Halts(w, s, es) && !report.committed && report.environments == None
    && (report.refused == [] <==> Clean(w, s, es))
    && working == AppliedAll(w, s, es) && applied == LinksOf(w, s, es)
    && report.linked == LinkedBy(w, s, es) && report.unlinked == UnlinkedBy(w, s, es)
    && report.kept == KeptBy(w, s, es)
  }

  lemma StopsAt(w: World, s: State, es: seq<Entry>, i: nat, working: State)
    requires Resolves(w, es) && DistinctAccounts(es) && i < |es| && working == AppliedAll(w, s, es[..i])
    requires Stops(w, working, es[i])
    ensures Halts(w, s, es)
  {
    SameStops(w, s, es, i);
  }

  lemma {:induction false} OneMoreApplied(w: World, s: State, es: seq<Entry>, i: nat, working: State,
                                          applied: map<Key, Account>, report: Report, n: State, now: map<Key, Account>,
                                          next: Report)
    requires Resolves(w, es) && DistinctAccounts(es) && i < |es| && AppliedTo(w, s, es[..i], working, applied, report)
    requires !Stops(w, working, es[i]) && n == Applied(w, working, es[i])
    requires now == if es[i].account.Some? && Refusal(w, working, es[i]).None?
                    then applied[KeyOf(w, es[i]) := es[i].account.value] else applied
    requires Reported(w, working, es[i], report, next)
    ensures AppliedTo(w, s, es[..i + 1], n, now, next)
  {
    OneMoreLine(w, s, es, i);
    SameStops(w, s, es, i);
    var lines := es[..i + 1];
    forall k | 0 <= k < |lines| ensures !Stops(w, s, lines[k]) {
      if k < i { assert !Stops(w, s, es[..i][k]); }
    }
  }

  /** What a line adds to the report. */
  predicate Reported(w: World, s: State, e: Entry, before: Report, report: Report)
    requires w.resolve(e.principal).Some?
  {
    && report.committed == before.committed && report.environments == before.environments
    && (report.refused == [] <==> before.refused == [] && Refusal(w, s, e).None?)
    && report.linked == before.linked + LinkedWith(w, s, e)
    && report.unlinked == before.unlinked + UnlinkedWith(w, s, e)
    && report.kept == before.kept + KeptWith(w, s, e)
  }

  method ApplyEntry(w: World, s: State, e: Entry, before: Report) returns (n: State, report: Report)
    requires w.resolve(e.principal).Some? && !Stops(w, s, e)
    ensures n == Applied(w, s, e) && Reported(w, s, e, before, report)
  {
    var p := w.resolve(e.principal).value;
    var previous := Previous(s, p.key);
    report := before;
    if e.account.None? {
      n := Unlinked(s, p.key);
      return n, if previous.Some? then before.(unlinked := before.unlinked + [p.key]) else before;
    }
    var a := e.account.value;
    var refusal := Refusal(w, s, e);
    if refusal.Some? {
      return s, before.(refused := before.refused + [Fault(e.line, refusal.value)]);
    }
    n := Linked(s, p.key, a, w.facts(p.key, a).facts);
    report := if previous == Some(a) then before.(kept := before.kept + 1)
      else before.(linked := before.linked + [(p.key, a)]);
  }

  // ---- the loops' bookkeeping ----

  ghost predicate Seen(w: World, es: seq<Entry>, keys: set<Key>, accounts: set<Account>) {
    && Resolves(w, es)
    && (forall k :: k in keys <==> exists i :: 0 <= i < |es| && KeyOf(w, es[i]) == k)
    && (forall a :: a in accounts <==> exists i :: 0 <= i < |es| && es[i].account == Some(a))
  }

  lemma SeenWithOneMore(w: World, es: seq<Entry>, e: Entry, keys: set<Key>, accounts: set<Account>)
    requires Seen(w, es, keys, accounts) && w.resolve(e.principal).Some?
    ensures Seen(w, es + [e], keys + {KeyOf(w, e)}, if e.account.Some? then accounts + {e.account.value} else accounts)
  {
    var n := es + [e];
    assert n[|es|] == e && forall i | 0 <= i < |es| :: n[i] == es[i];
  }

  lemma ValidWithOneMore(w: World, links: map<Key, Account>, es: seq<Entry>, e: Entry)
    ensures Valid(w, links, es + [e]) <==>
      && Valid(w, links, es) && w.resolve(e.principal).Some?
      && (forall i | 0 <= i < |es| :: KeyOf(w, es[i]) != KeyOf(w, e))
      && (e.account.Some? ==>
            && e.account.value !in w.retired && !LinkedElsewhere(links, KeyOf(w, e), e.account.value)
            && forall i | 0 <= i < |es| :: es[i].account != e.account)
  {
    var n := es + [e];
    assert n[|es|] == e && forall i | 0 <= i < |es| :: n[i] == es[i];
  }

  lemma CleanWithOneMore(w: World, s: State, es: seq<Entry>, e: Entry)
    requires Resolves(w, es) && w.resolve(e.principal).Some?
    ensures Resolves(w, es + [e]) && (Clean(w, s, es + [e]) <==> Clean(w, s, es) && Refusal(w, s, e).None?)
  {
    var n := es + [e];
    assert n[|es|] == e && forall i | 0 <= i < |es| :: n[i] == es[i];
  }

  lemma {:induction false} OneMoreLine(w: World, s: State, es: seq<Entry>, i: nat)
    requires Resolves(w, es) && i < |es|
    ensures var (before, e) := (AppliedAll(w, s, es[..i]), es[i]);
      && Refusal(w, before, e) == Refusal(w, s, e)
      && AppliedAll(w, s, es[..i + 1]) == Applied(w, before, e)
      && (Clean(w, s, es[..i + 1]) <==> Clean(w, s, es[..i]) && Refusal(w, s, e).None?)
      && LinkedBy(w, s, es[..i + 1]) == LinkedBy(w, s, es[..i]) + LinkedWith(w, before, e)
      && UnlinkedBy(w, s, es[..i + 1]) == UnlinkedBy(w, s, es[..i]) + UnlinkedWith(w, before, e)
      && KeptBy(w, s, es[..i + 1]) == KeptBy(w, s, es[..i]) + KeptWith(w, before, e)
      && LinksOf(w, s, es[..i + 1]) ==
           (if e.account.Some? && Refusal(w, s, e).None?
            then LinksOf(w, s, es[..i])[KeyOf(w, e) := e.account.value] else LinksOf(w, s, es[..i]))
  {
    var n := es[..i + 1];
    assert n[..i] == es[..i] && n == es[..i] + [es[i]];
    SameRefusals(w, s, es[..i], es[i]);
    CleanWithOneMore(w, s, es[..i], es[i]);
  }

  /** Applying lines never changes which keys belong to signed-in accounts, hence no refusal. */
  lemma {:induction false} SameRefusals(w: World, s: State, es: seq<Entry>, e: Entry)
    requires Resolves(w, es) && w.resolve(e.principal).Some?
    ensures Refusal(w, AppliedAll(w, s, es), e) == Refusal(w, s, e)
  {
    SignedInKeysStay(w, s, es);
  }

  /** Nor does an earlier line touch another line's account, so what ends the run can be told beforehand. */
  lemma SameStops(w: World, s: State, es: seq<Entry>, i: nat)
    requires Resolves(w, es) && DistinctAccounts(es) && i < |es|
    ensures Stops(w, AppliedAll(w, s, es[..i]), es[i]) <==> Stops(w, s, es[i])
  {
    SameRefusals(w, s, es[..i], es[i]);
    if es[i].account.Some? {
      forall k | 0 <= k < i ensures es[..i][k].account != es[i].account {}
      OtherAccountsStay(w, s, es[..i], es[i].account.value);
    }
  }

  lemma {:induction false} OtherAccountsStay(w: World, s: State, es: seq<Entry>, a: Account)
    requires Resolves(w, es) && forall k | 0 <= k < |es| :: es[k].account != Some(a)
    ensures RowOf(AppliedAll(w, s, es), a) == RowOf(s, a)
  {
    if es != [] { OtherAccountsStay(w, s, es[..|es| - 1], a); }
  }

  lemma {:induction false} SignedInKeysStay(w: World, s: State, es: seq<Entry>)
    requires Resolves(w, es)
    ensures forall k :: (k in s.keys && s.keys[k].origin.SignedIn?) <==>
              (k in AppliedAll(w, s, es).keys && AppliedAll(w, s, es).keys[k].origin.SignedIn?)
  {
    if es != [] { SignedInKeysStay(w, s, es[..|es| - 1]); }
  }

  // ---- what every run keeps ----

  ghost predicate Agree(s: State) {
    forall k :: (k in s.links <==> k in s.keys && s.keys[k].origin.IdentityLink?)
                && (k in s.links ==> s.keys[k].account == s.links[k])
  }

  predicate Injective(links: map<Key, Account>) {
    forall a, b | a in links && b in links && links[a] == links[b] :: a == b
  }

  lemma {:induction false} AppliedAgree(w: World, s: State, es: seq<Entry>)
    requires Resolves(w, es) && Agree(s)
    ensures Agree(AppliedAll(w, s, es))
  {
    if es != [] { AppliedAgree(w, s, es[..|es| - 1]); }
  }

  /** The links are as the line says. */
  predicate InForce(w: World, e: Entry, links: map<Key, Account>)
    requires w.resolve(e.principal).Some?
  {
    var k := KeyOf(w, e);
    if e.account.Some? then k in links && links[k] == e.account.value else k !in links
  }

  predicate Unlisted(w: World, es: seq<Entry>, k: Key)
    requires Resolves(w, es)
  {
    forall i | 0 <= i < |es| :: KeyOf(w, es[i]) != k
  }

  /** After a committed run each listed principal is linked as its line says, and no other link has changed. */
  lemma FinalLinks(w: World, s: State, es: seq<Entry>)
    requires Resolves(w, es) && DistinctKeys(w, es) && DistinctAccounts(es) && Clean(w, s, es) && !Halts(w, s, es)
    ensures var n := AppliedAll(w, s, es).links;
      && (forall i | 0 <= i < |es| :: InForce(w, es[i], n))
      && (forall k | Unlisted(w, es, k) :: (k in n <==> k in s.links) && (k in n ==> n[k] == s.links[k]))
  {
    ListedInForce(w, s, es);
    forall k | Unlisted(w, es, k) { UnlistedStay(w, s, es, k); }
  }

  lemma {:induction false} UnlistedStay(w: World, s: State, es: seq<Entry>, k: Key)
    requires Resolves(w, es) && Unlisted(w, es, k)
    ensures var n := AppliedAll(w, s, es).links; (k in n <==> k in s.links) && (k in n ==> n[k] == s.links[k])
  {
    if es != [] { UnlistedStay(w, s, es[..|es| - 1], k); }
  }

  lemma {:induction false} ListedInForce(w: World, s: State, es: seq<Entry>)
    requires Resolves(w, es) && DistinctKeys(w, es) && DistinctAccounts(es) && Clean(w, s, es) && !Halts(w, s, es)
    ensures forall i | 0 <= i < |es| :: InForce(w, es[i], AppliedAll(w, s, es).links)
  {
    if es != [] {
      var m := |es| - 1;
      var before := es[..m];
      assert forall i | 0 <= i < m :: before[i] == es[i];
      ListedInForce(w, s, before);
      SameRefusals(w, s, before, es[m]);
      SameStops(w, s, es, m);
      LinkAfterLine(w, AppliedAll(w, s, before), es[m]);
      var n := AppliedAll(w, s, es).links;
      forall i | 0 <= i < m ensures InForce(w, es[i], n) {
        assert InForce(w, before[i], AppliedAll(w, s, before).links);
      }
    }
  }

  lemma LinkAfterLine(w: World, s: State, e: Entry)
    requires w.resolve(e.principal).Some? && Refusal(w, s, e).None? && !Stops(w, s, e)
    ensures var k := KeyOf(w, e);
      Applied(w, s, e).links == if e.account.Some? then s.links[k := e.account.value] else s.links - {k}
  {}

  /** A committed run keeps the links injective. */
  lemma {:induction false} CommittedStaysInjective(w: World, s: State, es: seq<Entry>)
    requires Commits(w, s, es) && Injective(s.links)
    ensures Injective(AppliedAll(w, s, es).links)
  {
    var n := AppliedAll(w, s, es).links;
    FinalLinks(w, s, es);
    forall a, b | a in n && b in n && n[a] == n[b] ensures a == b {
      if i :| 0 <= i < |es| && KeyOf(w, es[i]) == a {
        if j :| 0 <= j < |es| && KeyOf(w, es[j]) == b {
          assert i == j;
        } else {
          assert !LinkedElsewhere(s.links, a, n[a]);
        }
      }
    }
  }

  datatype File = File(world: World, entries: seq<Entry>, dryRun: bool)

  function RunAll(s: State, files: seq<File>): State {
    if files == [] then s else
      var last := files[|files| - 1];
      Run(last.world, RunAll(s, files[..|files| - 1]), last.entries, last.dryRun)
  }

  predicate AllFit(accounts: map<Account, AccountRow>) { forall a | a in accounts :: Fits(accounts[a]) }

  function Keepers(accounts: map<Account, AccountRow>): map<Account, Account> {
    map a | a in accounts && accounts[a].custodian.Some? :: accounts[a].custodian.value.0
  }

  /** The accounts' constraint holds, and delegations are made by present custodians. */
  ghost predicate AccountsInOrder(s: State) { AllFit(s.accounts) && MadeByKeepers(s.delegations, Keepers(s.accounts)) }

  lemma {:induction false} AppliedInOrder(w: World, s: State, e: Entry)
    requires w.resolve(e.principal).Some? && AccountsInOrder(s) && !Stops(w, s, e)
    ensures AccountsInOrder(Applied(w, s, e))
  {
    if Applies(w, s, e) {
      var (a, f) := (e.account.value, w.facts(KeyOf(w, e), e.account.value).facts);
      var row := Upserted(RowOf(s, a), f);
      assert Keepers(s.accounts[a := row]) == WithKeeper(Keepers(s.accounts), a, CustodianOf(Some(row)));
      assert KeeperOf(Keepers(s.accounts), a) == CustodianOf(RowOf(s, a));
      FenceKeepsMade(s.delegations, Keepers(s.accounts), a, CustodianOf(Some(row)));
    }
  }

  lemma {:induction false} AllAppliedInOrder(w: World, s: State, es: seq<Entry>)
    requires Resolves(w, es) && DistinctAccounts(es) && !Halts(w, s, es) && AccountsInOrder(s)
    ensures AccountsInOrder(AppliedAll(w, s, es))
  {
    if es != [] {
      var m := |es| - 1;
      var before := es[..m];
      assert forall i | 0 <= i < m :: before[i] == es[i];
      AllAppliedInOrder(w, s, before);
      SameStops(w, s, es, m);
      assert !Stops(w, s, es[m]);
      AppliedInOrder(w, AppliedAll(w, s, before), es[m]);
    }
  }

  /**
   * Over any sequence of runs, the links stay a partial injection, the two tables agree, only Silicons have a
   * custodian, and no delegation outlives the custodian that made it.
   */
  lemma {:induction false} RunsKeepLinks(s: State, files: seq<File>)
    requires Agree(s) && Injective(s.links) && AccountsInOrder(s)
    ensures var n := RunAll(s, files); Agree(n) && Injective(n.links) && AccountsInOrder(n)
  {
    if files != [] {
      var before, last := RunAll(s, files[..|files| - 1]), files[|files| - 1];
      RunsKeepLinks(s, files[..|files| - 1]);
      if Commits(last.world, before, last.entries) {
        AppliedAgree(last.world, before, last.entries);
        CommittedStaysInjective(last.world, before, last.entries);
        AllAppliedInOrder(last.world, before, last.entries);
      }
    }
  }

  /**
   * The input the constraint refuses: an account taken for a Carbon once, which turns out to be a Silicon in someone's
   * care.
   */
  lemma MistakenCarbonStopsRun(w: World, s: State, e: Entry, carbon: AccountRow, silicon: Facts)
    requires w.resolve(e.principal).Some? && e.account.Some? && Refusal(w, s, e).None?
    requires RowOf(s, e.account.value) == Some(carbon) && carbon.kind == Some(Carbon)
    requires w.facts(KeyOf(w, e), e.account.value) == Found(silicon) && silicon.kind.Silicon? && silicon.custodian.Some?
    ensures Stops(w, s, e) && !Commits(w, s, [e]) && Run(w, s, [e], false) == s
  {
    assert [e][0] == e;
  }

  /** What the line says of an account is already stored. */
  predicate Settled(w: World, s: State, e: Entry)
    requires w.resolve(e.principal).Some?
  {
    e.account.Some? ==>
      var facts := w.facts(KeyOf(w, e), e.account.value);
      && facts.Found? && e.account.value in s.accounts && Fits(s.accounts[e.account.value])
      && Upserted(RowOf(s, e.account.value), facts.facts) == s.accounts[e.account.value]
  }

  lemma {:induction false} FinalAccounts(w: World, s: State, es: seq<Entry>)
    requires Resolves(w, es) && DistinctAccounts(es) && Clean(w, s, es) && !Halts(w, s, es)
    ensures forall i | 0 <= i < |es| :: Settled(w, AppliedAll(w, s, es), es[i])
  {
    if es != [] {
      var m := |es| - 1;
      var before := es[..m];
      assert forall i | 0 <= i < m :: before[i] == es[i];
      FinalAccounts(w, s, before);
      SameRefusals(w, s, before, es[m]);
      SameStops(w, s, es, m);
      assert !Stops(w, s, es[m]);
      var n := AppliedAll(w, s, es);
      assert n == Applied(w, AppliedAll(w, s, before), es[m]);
      forall i | 0 <= i < m ensures Settled(w, n, es[i]) {
        assert Settled(w, AppliedAll(w, s, before), before[i]);
      }
    }
  }

  /** The row says what was found out: the id and the custodian if there are any, and the kind if it was unknown. */
  predicate Tells(row: AccountRow, before: Option<AccountRow>, f: Facts) {
    && row.publicId == (if f.publicId != "" || before.None? then f.publicId else before.value.publicId)
    && row.kind == (if before.Some? && before.value.kind.Some? then before.value.kind else Some(f.kind))
    && row.custodian == if f.kind == Silicon && f.custodian.Some? then f.custodian
                        else if before.Some? then before.value.custodian else None
  }

  /** After a committed run every listed account's row tells what was found out. */
  lemma {:induction false} FinalRowsTell(w: World, s: State, es: seq<Entry>)
    requires Resolves(w, es) && DistinctAccounts(es) && Clean(w, s, es) && !Halts(w, s, es)
    ensures var n := AppliedAll(w, s, es);
      forall i | 0 <= i < |es| && es[i].account.Some? ::
        && w.facts(KeyOf(w, es[i]), es[i].account.value).Found? && es[i].account.value in n.accounts
        && Tells(n.accounts[es[i].account.value], RowOf(s, es[i].account.value),
                 w.facts(KeyOf(w, es[i]), es[i].account.value).facts)
  {
    if es != [] {
      var m := |es| - 1;
      var before := es[..m];
      assert forall i | 0 <= i < m :: before[i] == es[i];
      FinalRowsTell(w, s, before);
      SameRefusals(w, s, before, es[m]);
      SameStops(w, s, es, m);
      assert !Stops(w, s, es[m]);
      if es[m].account.Some? {
        forall k | 0 <= k < m ensures before[k].account != es[m].account {}
        OtherAccountsStay(w, s, before, es[m].account.value);
      }
    }
  }

  lemma {:induction false} SameLinks(w: World, s: State, n: State, es: seq<Entry>)
    requires Resolves(w, es) && forall i | 0 <= i < |es| :: Refusal(w, n, es[i]) == Refusal(w, s, es[i])
    ensures LinksOf(w, n, es) == LinksOf(w, s, es)
  {
    if es != [] {
      assert forall i | 0 <= i < |es| - 1 :: es[..|es| - 1][i] == es[i];
      SameLinks(w, s, n, es[..|es| - 1]);
    }
  }

  /** Running a committed file again commits, links and unlinks nothing, and leaves every table as it is. */
  lemma RerunIsNoOp(w: World, s: State, es: seq<Entry>)
    requires Commits(w, s, es) && Agree(s) && Injective(s.links)
    ensures var n := AppliedAll(w, s, es);
      && Commits(w, n, es) && Run(w, n, es, false) == n && LinkedBy(w, n, es) == [] && UnlinkedBy(w, n, es) == []
      && LinksOf(w, n, es) == LinksOf(w, s, es)
  {
    var n := AppliedAll(w, s, es);
    AppliedAgree(w, s, es);
    CommittedStaysInjective(w, s, es);
    FinalLinks(w, s, es);
    FinalAccounts(w, s, es);
    forall i | 0 <= i < |es| ensures Refusal(w, n, es[i]) == Refusal(w, s, es[i]) && !Stops(w, n, es[i]) {
      SameRefusals(w, s, es, es[i]);
      assert Settled(w, n, es[i]);
    }
    SameLinks(w, s, n, es);
    AppliedToItself(w, n, es);
  }

  lemma {:induction false} AppliedToItself(w: World, n: State, es: seq<Entry>)
    requires Resolves(w, es) && Agree(n) && forall i | 0 <= i < |es| :: Settled(w, n, es[i])
    requires forall i | 0 <= i < |es| :: InForce(w, es[i], n.links)
    ensures AppliedAll(w, n, es) == n && LinkedBy(w, n, es) == [] && UnlinkedBy(w, n, es) == []
  {
    if es != [] {
      var before := es[..|es| - 1];
      assert forall i | 0 <= i < |before| :: before[i] == es[i];
      AppliedToItself(w, n, before);
      OneAppliedToItself(w, n, es[|es| - 1]);
    }
  }

  lemma OneAppliedToItself(w: World, n: State, e: Entry)
    requires w.resolve(e.principal).Some? && Agree(n) && Settled(w, n, e)
    requires InForce(w, e, n.links)
    ensures Applied(w, n, e) == n
    ensures if e.account.Some? then Previous(n, KeyOf(w, e)) == e.account else Previous(n, KeyOf(w, e)) == None
  {
    var k := KeyOf(w, e);
    assert k in n.links <==> k in n.keys && n.keys[k].origin.IdentityLink?;
  }

  // ---- test environments: when a second run completes the first ----

  /** When nothing is left to carry over, nothing clashes. */
  lemma NothingMovesIsFree(envs: map<nat, Environment>, links: map<Key, Account>)
    requires !NameClash(envs) && OwnedAll(envs, links) == envs
    ensures StepsFree(envs, links)
  {
    forall k | k in links ensures OwnedAll(envs, UpTo(links, k)) == envs {
      forall x | x in envs ensures Owned(envs[x], UpTo(links, k)) == envs[x] {
        assert Owned(envs[x], links) == OwnedAll(envs, links)[x];
      }
    }
  }

  lemma {:induction false} GreatestOf(keys: set<Key>) returns (last: Key)
    requires keys != {}
    ensures last in keys && forall k | k in keys :: k <= last
    decreases |keys|
  {
    var k :| k in keys;
    assert forall j | j in keys :: j == k || j in keys - {k};
    if keys - {k} == {} {
      last := k;
    } else {
      var other := GreatestOf(keys - {k});
      last := if k < other then other else k;
    }
  }

  lemma LastStepIsAll(envs: map<nat, Environment>, links: map<Key, Account>)
    requires !NameClash(envs) && NameClash(OwnedAll(envs, links))
    ensures !StepsFree(envs, links)
  {
    assert links == map[] ==> OwnedAll(envs, links) == envs;
    if links != map[] {
      var last := GreatestOf(links.Keys);
      assert UpTo(links, last) == links;
    }
  }

  /** A run that commits moves the environments exactly when no step clashes, and else leaves them. */
  lemma CommittedCarriesIff(w: World, s: State, es: seq<Entry>, envs: map<nat, Environment>, links: map<Key, Account>)
    requires Commits(w, s, es) && links == LinksOf(w, s, es) && !NameClash(envs)
    ensures EnvironmentsAfter(w, s, es, false, Reachable, envs) == OwnedAll(envs, links) <==> StepsFree(envs, links)
    ensures !StepsFree(envs, links) ==> EnvironmentsAfter(w, s, es, false, Reachable, envs) == envs
  {
    if OwnedAll(envs, links) == envs { NothingMovesIsFree(envs, links); }
  }

  /**
   * The testing database failed after production committed. Running the same file again changes nothing in production,
   * and completes the run exactly when no step of the update clashes in the environments as they are by then. So it
   * fails for as long as two of them clash, and may succeed once one of these is retired.
   */
  lemma RerunCompletesIff(w: World, s: State, es: seq<Entry>, envs: map<nat, Environment>, later: map<nat, Environment>)
    requires Commits(w, s, es) && Agree(s) && Injective(s.links) && !NameClash(later)
    ensures var (n, links) := (Run(w, s, es, false), LinksOf(w, s, es));
      && EnvironmentsAfter(w, s, es, false, Down, envs) == envs && Run(w, n, es, false) == n
      && (EnvironmentsAfter(w, n, es, false, Reachable, later) == OwnedAll(later, links) <==> StepsFree(later, links))
      && (!StepsFree(later, links) ==> EnvironmentsAfter(w, n, es, false, Reachable, later) == later)
  {
    RerunIsNoOp(w, s, es);
    CommittedCarriesIff(w, AppliedAll(w, s, es), es, later, LinksOf(w, s, es));
  }

  /** Once carried over, environments stay; carrying them over again moves none. */
  lemma CarriedOverStays(envs: map<nat, Environment>, links: map<Key, Account>)
    ensures OwnedAll(OwnedAll(envs, links), links) == OwnedAll(envs, links) && Moved(OwnedAll(envs, links), links) == {}
  {}

  /** Unless an environment leaves one listed account for another, only the final names matter. */
  lemma FinalNamesDecide(envs: map<nat, Environment>, links: map<Key, Account>)
    requires !NameClash(envs)
    requires forall x | x in envs && Owned(envs[x], links) != envs[x] ::
      envs[x].owner.None? || envs[x].owner.value !in links.Values
    ensures StepsFree(envs, links) <==> !NameClash(OwnedAll(envs, links))
  {
    if NameClash(OwnedAll(envs, links)) { LastStepIsAll(envs, links); }
    forall k | k in links && NameClash(OwnedAll(envs, UpTo(links, k))) ensures NameClash(OwnedAll(envs, links)) {
      ClashStays(envs, links, UpTo(links, k));
    }
  }

  lemma ClashStays(envs: map<nat, Environment>, links: map<Key, Account>, some: map<Key, Account>)
    requires !NameClash(envs)
      && (forall k | k in some :: k in links && links[k] == some[k]) && NameClash(OwnedAll(envs, some))
    requires forall x | x in envs && Owned(envs[x], links) != envs[x] ::
      envs[x].owner.None? || envs[x].owner.value !in links.Values
    ensures NameClash(OwnedAll(envs, links))
  {
    var m, n := OwnedAll(envs, some), OwnedAll(envs, links);
    var x, y :| x in m && y in m && x != y && Indexed(m[x]) && Indexed(m[y]) && m[x].owner == m[y].owner
      && m[x].name == m[y].name;
    OneStays(envs[x], links, some);
    OneStays(envs[y], links, some);
    assert m[x] != envs[x] || m[y] != envs[y];
    assert n[x] == m[x] && n[y] == m[y];
  }

  /** Once with a listed account, an environment stays with it. */
  lemma OneStays(e: Environment, links: map<Key, Account>, some: map<Key, Account>)
    requires forall k | k in some :: k in links && links[k] == some[k]
    requires Owned(e, links) != e ==> e.owner.None? || e.owner.value !in links.Values
    ensures var m := Owned(e, some);
      && (m != e ==> m.owner.Some? && m.owner.value in links.Values)
      && (m.owner.Some? && m.owner.value in links.Values ==> Owned(e, links) == m)
  {}

  /** One creator's environments of the same name, told apart by their organizations only, never reach one account. */
  lemma SameNameNeverCompletes(key: Key, a: Account, name: string)
    ensures var envs := map[1 := Environment(Some(key), true, true, name, None),
                            2 := Environment(Some(key), true, true, name, None)];
      !NameClash(envs) && !StepsFree(envs, map[key := a])
  {
    var envs := map[1 := Environment(Some(key), true, true, name, None),
                    2 := Environment(Some(key), true, true, name, None)];
    var links := map[key := a];
    var n := OwnedAll(envs, links);
    assert n[1].owner == n[2].owner && Indexed(n[1]) && Indexed(n[2]);
    LastStepIsAll(envs, links);
  }

  /** Nor do two environments that change places, though their final owners would not clash. */
  lemma {:induction false} ExchangeNeverCompletes(name: string)
    ensures var envs := map[1 := Environment(Some(1), true, true, name, Some("b")),
                            2 := Environment(Some(2), true, true, name, Some("a"))];
      var links := map[1 := "a", 2 := "b"];
      !NameClash(envs) && !NameClash(OwnedAll(envs, links)) && !StepsFree(envs, links)
  {
    var envs := map[1 := Environment(Some(1), true, true, name, Some("b")),
                    2 := Environment(Some(2), true, true, name, Some("a"))];
    var links := map[1 := "a", 2 := "b"];
    var half := OwnedAll(envs, UpTo(links, 1));
    assert ("a" != "b") && 1 in links && UpTo(links, 1) == map[1 := "a"];
    assert half[1].owner == half[2].owner && Indexed(half[1]) && Indexed(half[2]);
    assert NameClash(half);
  }

  // ---- what a run takes on trust, and what not ----

  /** A committed run links only accounts that are found and of the kind the organisation had the principal down for. */
  lemma CommittedKindsAgree(w: World, s: State, es: seq<Entry>, i: nat)
    requires Commits(w, s, es) && i < |es| && es[i].account.Some?
    ensures var facts := w.facts(KeyOf(w, es[i]), es[i].account.value);
      var known := w.resolve(es[i].principal).value.iamKind;
      facts.Found? && (known.Some? ==> known == Some(facts.facts.kind))
  {
    assert Refusal(w, s, es[i]).None? && !Stops(w, s, es[i]);
  }

  /** An environment that is deleted, not managed or nobody's is in no one's way. */
  lemma {:induction false} OthersStepAside(envs: map<nat, Environment>, links: map<Key, Account>, x: nat)
    requires x in envs
    requires !envs[x].stored || !envs[x].managed
      || (envs[x].owner.None? && !(envs[x].creator.Some? && envs[x].creator.value in links))
    ensures NameClash(OwnedAll(envs, links)) <==> NameClash(OwnedAll(envs - {x}, links))
  {
    var all, rest := OwnedAll(envs, links), OwnedAll(envs - {x}, links);
    assert forall y | y in rest :: y in all && rest[y] == all[y];
    assert forall y | y in all && y != x :: y in rest;
    assert !Indexed(all[x]);
  }
}
