// Applying an identity mapping to a database and recording it in its ledgers (scripts/accounts_uuid128.py).
module Ledger {
  import opened Wrappers
  import opened UuidRewrite

  /** What a source identity became, and the kind of its account. */
  datatype Target = Target(id: Id, kind: Kind)

  type Book = map<Id, Target>

  /** Account rows by uuid; an unknown kind is none. */
  type Accounts = map<Id, Option<Kind>>

  /** A value of an identity column; in a conditional column only some rows' values are identities. */
  datatype Cell = Cell(id: Option<Id>, identity: bool)

  /**
   * The app's own ledger, the ledgers listed for checking beside it, the account tables, and the rows of the other
   * identity columns and of the structured columns.
   */
  datatype Database = Database(ledger: Book, managed: seq<Book>, accounts: seq<Accounts>, cells: seq<Cell>,
                               values: seq<Json>)

  /** `tracked`: the app's own ledger is itself among the listed ones. `keys` hold identities in structured values. */
  datatype Manifest = Manifest(tracked: bool, allowUnknownKind: bool, keys: set<string>)

  datatype Refusal =
    | ConflictsWithLedger | TargetTaken | ManagedLedgerConflict
    | UnmappedLegacyAccount | KindContradiction | TargetAccountExists

  predicate Injective(b: Book) { forall x, y | x in b && y in b && b[x].id == b[y].id :: x == y }

  predicate Unchained(b: Book) { forall x, y | x in b && y in b :: b[x].id != y }

  /** What an accepted mapping file gives. */
  predicate GoodMapping(m: Book) {
    m != map[] && Injective(m) && Unchained(m) && forall x | x in m :: CanonicalV4(m[x].id)
  }

  function BookOf(m: Mapping): Book
    requires m.kinds.Keys == m.targets.Keys
  {
    map x | x in m.targets :: Target(m.targets[x], m.kinds[x])
  }

  lemma ParsedTargets(rows: seq<seq<string>>)
    requires AllParse(ParseRow, rows)
    ensures forall e | e in Entries(ParseRow, rows) :: CanonicalV4(e.target)
  {}

  lemma EntriesAreGood(es: seq<Entry>, m: Mapping)
    requires es != [] && Holds(m, es) && ChainFree(m.targets) && forall e | e in es :: CanonicalV4(e.target)
    ensures GoodMapping(BookOf(m))
  {
    assert es[0] in es && es[0].source in BookOf(m);
    forall x | x in m.targets ensures CanonicalV4(m.targets[x]) {
      var e :| e in es && e.source == x;
    }
  }

  /** The order in which the mapping's entries are gone through. */
  predicate Lists(order: seq<Id>, m: Book) { (forall x | x in order :: x in m) && forall x | x in m :: x in order }

  function FileOrder(es: seq<Entry>): seq<Id> { seq(|es|, i requires 0 <= i < |es| => es[i].source) }

  lemma FileOrderLists(es: seq<Entry>, m: Mapping)
    requires Holds(m, es)
    ensures Lists(FileOrder(es), BookOf(m))
  {
    var order := FileOrder(es);
    forall x | x in m.targets ensures x in order {
      var e :| e in es && e.source == x;
      var i :| 0 <= i < |es| && es[i] == e;
      assert order[i] == x;
    }
    forall x | x in order ensures x in m.targets {
      var i :| 0 <= i < |order| && order[i] == x;
      assert es[i] in es;
    }
  }

  /** Accepted files give good mappings, with their entries in file order. */
  lemma AcceptedIsGood(rows: seq<seq<string>>, m: Mapping)
    requires Acceptable(ParseRow, rows) && Holds(m, Entries(ParseRow, rows)) && ChainFree(m.targets)
    ensures GoodMapping(BookOf(m)) && Lists(FileOrder(Entries(ParseRow, rows)), BookOf(m))
  {
    ParsedTargets(rows);
    EntriesAreGood(Entries(ParseRow, rows), m);
    FileOrderLists(Entries(ParseRow, rows), m);
  }

  predicate KindMatches(actual: Option<Kind>, expected: Kind, allowUnknown: bool) {
    actual == Some(expected) || (allowUnknown && actual.None?)
  }

  predicate Within(b: Book, m: Book) { forall x | x in b :: x in m && b[x] == m[x] }

  // ---- the checks before anything is written ----

  function BookRefusal(d: Database, manifest: Manifest, m: Book): Option<Refusal> {
    if exists x | x in m :: x in d.ledger && d.ledger[x] != m[x] then Some(ConflictsWithLedger)
    else if exists x | x in d.ledger :: x !in m && exists y | y in m :: m[y].id == d.ledger[x].id then Some(TargetTaken)
    else if (manifest.tracked && !Within(d.ledger, m)) || exists b | b in d.managed :: !Within(b, m)
    then Some(ManagedLedgerConflict)
    else None
  }

  /** No refusal by the ledgers: they agree with the mapping, which takes no target of an entry outside it. */
  predicate BooksPass(d: Database, manifest: Manifest, m: Book) {
    && (forall x | x in m && x in d.ledger :: d.ledger[x] == m[x])
    && (forall x, y | x in d.ledger && x !in m && y in m :: m[y].id != d.ledger[x].id)
    && (manifest.tracked ==> Within(d.ledger, m))
    && (forall b | b in d.managed :: Within(b, m))
  }

  lemma BooksPassIff(d: Database, manifest: Manifest, m: Book)
    ensures BookRefusal(d, manifest, m).None? <==> BooksPass(d, manifest, m)
  {}

  function EntryRefusal(a: Accounts, prior: Book, m: Book, x: Id, allowUnknown: bool): Option<Refusal>
    requires x in m
  {
    if x in a && !KindMatches(a[x], m[x].kind, allowUnknown) then Some(KindContradiction)
    else if m[x].id in a && (x in a || x !in prior || !KindMatches(a[m[x].id], m[x].kind, allowUnknown))
      then Some(TargetAccountExists)
    else None
  }

  function EntriesRefusal(a: Accounts, prior: Book, m: Book, order: seq<Id>, allowUnknown: bool): Option<Refusal>
    requires forall x | x in order :: x in m
  {
    if order == [] then None else
      var r := EntryRefusal(a, prior, m, order[0], allowUnknown);
      if r.Some? then r else EntriesRefusal(a, prior, m, order[1..], allowUnknown)
  }

  function AccountsRefusal(a: Accounts, prior: Book, m: Book, order: seq<Id>, allowUnknown: bool): Option<Refusal>
    requires Lists(order, m)
  {
    if exists x | x in a :: x !in m && !CanonicalUuid(x) then Some(UnmappedLegacyAccount)
    else EntriesRefusal(a, prior, m, order, allowUnknown)
  }

  /** No refusal by an account table: a target exists already only if an earlier run renamed its source. */
  predicate AccountsPass(a: Accounts, prior: Book, m: Book, allowUnknown: bool) {
    && (forall x | x in a && x !in m :: CanonicalUuid(x))
    && (forall x | x in a && x in m :: KindMatches(a[x], m[x].kind, allowUnknown))
    && (forall x | x in m && m[x].id in a :: x !in a && x in prior && KindMatches(a[m[x].id], m[x].kind, allowUnknown))
  }

  lemma {:induction false} EntriesRefusalNoneIff(a: Accounts, prior: Book, m: Book, order: seq<Id>, allowUnknown: bool)
    requires forall x | x in order :: x in m
    ensures EntriesRefusal(a, prior, m, order, allowUnknown).None? <==>
            forall x | x in order :: EntryRefusal(a, prior, m, x, allowUnknown).None?
    decreases |order|
  {
    if order != [] { EntriesRefusalNoneIff(a, prior, m, order[1..], allowUnknown); }
  }

  lemma AccountsPassIff(a: Accounts, prior: Book, m: Book, order: seq<Id>, allowUnknown: bool)
    requires Lists(order, m)
    ensures AccountsRefusal(a, prior, m, order, allowUnknown).None? <==> AccountsPass(a, prior, m, allowUnknown)
  {
    EntriesRefusalNoneIff(a, prior, m, order, allowUnknown);
    assert AccountsPass(a, prior, m, allowUnknown) ==>
      forall x | x in m :: EntryRefusal(a, prior, m, x, allowUnknown).None?;
    if AccountsRefusal(a, prior, m, order, allowUnknown).None? {
      assert forall x | x in m :: EntryRefusal(a, prior, m, x, allowUnknown).None?;
    }
  }

  /** Everything the checks let through, whatever the order of the entries. */
  predicate Passes(d: Database, manifest: Manifest, m: Book) {
    BooksPass(d, manifest, m) && forall a | a in d.accounts :: AccountsPass(a, d.ledger, m, manifest.allowUnknownKind)
  }

  // ---- what a run writes ----

  /** `ON CONFLICT (old_uuid) DO NOTHING`. */
  function Recorded(b: Book, m: Book): Book { m + b }

  function Renamed(m: Book, x: Id): Id { if x in m then m[x].id else x }

  predicate KeepsApart(a: Accounts, m: Book) {
    forall x, y | x in a && y in a && Renamed(m, x) == Renamed(m, y) :: x == y
  }

  /** The account rows under their new identities. */
  ghost predicate IsRenaming(a: Accounts, m: Book, n: Accounts) {
    && (forall x | x in a :: Renamed(m, x) in n && n[Renamed(m, x)] == a[x])
    && (forall y | y in n :: exists x :: x in a && Renamed(m, x) == y)
  }

  function Rename(a: Accounts, m: Book): (n: Accounts)
    requires KeepsApart(a, m)
    ensures IsRenaming(a, m, n)
  {
    map x | x in a :: Renamed(m, x) := a[x]
  }

  function Ids(m: Book): map<Id, Id> { map x | x in m :: m[x].id }

  function RewriteCell(m: Book, c: Cell): Cell {
    if c.identity && c.id.Some? then c.(id := Some(Renamed(m, c.id.value))) else c
  }

  function RewriteValue(keys: set<string>, m: Book, v: Json): Json { Rewrite(keys, Substitute(Ids(m)), v) }

  function FirstRefusal(accounts: seq<Accounts>, prior: Book, m: Book, order: seq<Id>,
                        allowUnknown: bool): Option<Refusal>
    requires Lists(order, m)
  {
    if accounts == [] then None else
      var r := AccountsRefusal(accounts[0], prior, m, order, allowUnknown);
      if r.Some? then r else FirstRefusal(accounts[1..], prior, m, order, allowUnknown)
  }

  lemma {:induction false} FirstRefusalNoneIff(accounts: seq<Accounts>, prior: Book, m: Book, order: seq<Id>,
                                               allowUnknown: bool)
    requires Lists(order, m)
    ensures FirstRefusal(accounts, prior, m, order, allowUnknown).None? <==>
            forall a | a in accounts :: AccountsPass(a, prior, m, allowUnknown)
    decreases |accounts|
  {
    if accounts != [] {
      AccountsPassIff(accounts[0], prior, m, order, allowUnknown);
      FirstRefusalNoneIff(accounts[1..], prior, m, order, allowUnknown);
    }
  }

  function Refused(d: Database, manifest: Manifest, m: Book, order: seq<Id>): Option<Refusal>
    requires Lists(order, m)
  {
    var r := BookRefusal(d, manifest, m);
    if r.Some? then r else FirstRefusal(d.accounts, d.ledger, m, order, manifest.allowUnknownKind)
  }

  /** The order decides which refusal is reported, never whether there is one. */
  lemma RefusedNoneIff(d: Database, manifest: Manifest, m: Book, order: seq<Id>)
    requires Lists(order, m)
    ensures Refused(d, manifest, m, order).None? <==> Passes(d, manifest, m)
  {
    BooksPassIff(d, manifest, m);
    FirstRefusalNoneIff(d.accounts, d.ledger, m, order, manifest.allowUnknownKind);
  }

  /** Account identities stay apart: what the checks are for. */
  lemma CheckedAccountsStayApart(a: Accounts, prior: Book, m: Book, allowUnknown: bool)
    requires GoodMapping(m) && AccountsPass(a, prior, m, allowUnknown)
    ensures KeepsApart(a, m)
  {}

  /** The database after an applied run. */
  function Migrated(d: Database, manifest: Manifest, m: Book): Database
    requires GoodMapping(m) && Passes(d, manifest, m)
  {
    Database(Recorded(d.ledger, m),
      seq(|d.managed|, i requires 0 <= i < |d.managed| => Recorded(d.managed[i], m)),
      seq(|d.accounts|, i requires 0 <= i < |d.accounts| =>
        CheckedAccountsStayApart(d.accounts[i], d.ledger, m, manifest.allowUnknownKind);
        Rename(d.accounts[i], m)),
      seq(|d.cells|, i requires 0 <= i < |d.cells| => RewriteCell(m, d.cells[i])),
      seq(|d.values|, i requires 0 <= i < |d.values| => RewriteValue(manifest.keys, m, d.values[i])))
  }

  function Apply(d: Database, manifest: Manifest, m: Book): Database
    requires GoodMapping(m)
  {
    if Passes(d, manifest, m) then Migrated(d, manifest, m) else d
  }

  class Store {
    var ledger: Book
    var managed: seq<Book>
    var accounts: seq<Accounts>
    var cells: seq<Cell>
    var values: seq<Json>

    function View(): Database
      reads this
    {
      Database(ledger, managed, accounts, cells, values)
    }

    constructor (d: Database)
      ensures View() == d
    {
      ledger, managed, accounts, cells, values := d.ledger, d.managed, d.accounts, d.cells, d.values;
    }

    /** One run in one transaction; only an unrefused run with `apply` leaves a trace. */
    method Migrate(manifest: Manifest, m: Book, order: seq<Id>, apply: bool) returns (refusal: Option<Refusal>)
      requires GoodMapping(m) && Lists(order, m)
      modifies this
      ensures refusal == Refused(old(View()), manifest, m, order)
      ensures View() == if apply then Apply(old(View()), manifest, m) else old(View())
    {
      refusal := BookRefusal(View(), manifest, m);
      if refusal.None? {
        refusal := CheckAccounts(m, order, manifest.allowUnknownKind);
      }
      RefusedNoneIff(View(), manifest, m, order);
      if refusal.Some? || !apply {
        return;
      }
      Rewrite(manifest, m);
    }

    method Rewrite(manifest: Manifest, m: Book)
      requires GoodMapping(m) && Passes(View(), manifest, m)
      modifies this
      ensures View() == Migrated(old(View()), manifest, m)
    {
      forall k | 0 <= k < |accounts| ensures KeepsApart(accounts[k], m) {
        CheckedAccountsStayApart(accounts[k], ledger, m, manifest.allowUnknownKind);
      }
      var renamed := RenameAll(m);
      var books := RecordAll(m);
      var newCells := RewriteCells(m);
      var newValues := RewriteValues(manifest.keys, m);
      MigratedParts(View(), manifest, m, Database(Recorded(ledger, m), books, renamed, newCells, newValues));
      ledger, managed, accounts, cells, values := Recorded(ledger, m), books, renamed, newCells, newValues;
    }

    method RewriteCells(m: Book) returns (rewritten: seq<Cell>)
      ensures |rewritten| == |cells| && forall k | 0 <= k < |cells| :: rewritten[k] == RewriteCell(m, cells[k])
    {
      rewritten := [];
      var i := 0;
      while i < |cells|
        invariant 0 <= i == |rewritten| <= |cells|
        invariant forall k | 0 <= k < i :: rewritten[k] == RewriteCell(m, cells[k])
      {
        rewritten := rewritten + [RewriteCell(m, cells[i])];
        i := i + 1;
      }
    }

    method RewriteValues(keys: set<string>, m: Book) returns (rewritten: seq<Json>)
      ensures |rewritten| == |values|
        && forall k | 0 <= k < |values| :: rewritten[k] == RewriteValue(keys, m, values[k])
    {
      rewritten := [];
      var i := 0;
      while i < |values|
        invariant 0 <= i == |rewritten| <= |values|
        invariant forall k | 0 <= k < i :: rewritten[k] == RewriteValue(keys, m, values[k])
      {
        rewritten := rewritten + [RewriteValue(keys, m, values[i])];
        i := i + 1;
      }
    }

    method CheckAccounts(m: Book, order: seq<Id>, allowUnknown: bool) returns (refusal: Option<Refusal>)
      requires Lists(order, m)
      ensures refusal == FirstRefusal(accounts, ledger, m, order, allowUnknown)
    {
      var i := 0;
      while i < |accounts|
        invariant 0 <= i <= |accounts|
        invariant FirstRefusal(accounts[i..], ledger, m, order, allowUnknown)
          == FirstRefusal(accounts, ledger, m, order, allowUnknown)
      {
        if exists x | x in accounts[i] :: x !in m && !CanonicalUuid(x) {
          return Some(UnmappedLegacyAccount);
        }
        refusal := CheckEntries(accounts[i], m, order, allowUnknown);
        if refusal.Some? {
          return;
        }
        i := i + 1;
      }
      return None;
    }

    method CheckEntries(a: Accounts, m: Book, order: seq<Id>, allowUnknown: bool) returns (refusal: Option<Refusal>)
      requires Lists(order, m)
      ensures refusal == EntriesRefusal(a, ledger, m, order, allowUnknown)
    {
      var i := 0;
      while i < |order|
        invariant 0 <= i <= |order|
        invariant EntriesRefusal(a, ledger, m, order[i..], allowUnknown)
          == EntriesRefusal(a, ledger, m, order, allowUnknown)
      {
        refusal := EntryRefusal(a, ledger, m, order[i], allowUnknown);
        if refusal.Some? {
          return;
        }
        i := i + 1;
      }
      return None;
    }

    method RenameAll(m: Book) returns (renamed: seq<Accounts>)
      requires forall k | 0 <= k < |accounts| :: KeepsApart(accounts[k], m)
      ensures |renamed| == |accounts| && forall k | 0 <= k < |accounts| :: renamed[k] == Rename(accounts[k], m)
    {
      renamed := [];
      var i := 0;
      while i < |accounts|
        invariant 0 <= i == |renamed| <= |accounts|
        invariant forall k | 0 <= k < i :: renamed[k] == Rename(accounts[k], m)
      {
        renamed := renamed + [Rename(accounts[i], m)];
        i := i + 1;
      }
    }

    method RecordAll(m: Book) returns (books: seq<Book>)
      ensures |books| == |managed| && forall k | 0 <= k < |managed| :: books[k] == Recorded(managed[k], m)
    {
      books := [];
      var i := 0;
      while i < |managed|
        invariant 0 <= i == |books| <= |managed|
        invariant forall k | 0 <= k < i :: books[k] == Recorded(managed[k], m)
      {
        books := books + [Recorded(managed[i], m)];
        i := i + 1;
      }
    }
  }

  lemma {:induction false} MigratedParts(d: Database, manifest: Manifest, m: Book, n: Database)
    requires GoodMapping(m) && Passes(d, manifest, m) && n.ledger == Recorded(d.ledger, m)
    requires forall k | 0 <= k < |d.accounts| :: KeepsApart(d.accounts[k], m)
    requires |n.accounts| == |d.accounts|
      && forall k | 0 <= k < |d.accounts| :: n.accounts[k] == Rename(d.accounts[k], m)
    requires |n.managed| == |d.managed| && forall k | 0 <= k < |d.managed| :: n.managed[k] == Recorded(d.managed[k], m)
    requires |n.cells| == |d.cells| && forall k | 0 <= k < |d.cells| :: n.cells[k] == RewriteCell(m, d.cells[k])
    requires |n.values| == |d.values|
      && forall k | 0 <= k < |d.values| :: n.values[k] == RewriteValue(manifest.keys, m, d.values[k])
    ensures n == Migrated(d, manifest, m)
  {
    var x := Migrated(d, manifest, m);
    assert n.accounts == x.accounts && n.managed == x.managed && n.cells == x.cells && n.values == x.values;
  }

  // ---- the ledger over runs ----

  function RunAll(d: Database, manifest: Manifest, files: seq<Book>): Database
    requires forall m | m in files :: GoodMapping(m)
  {
    if files == [] then d else Apply(RunAll(d, manifest, files[..|files| - 1]), manifest, files[|files| - 1])
  }

  /** An applied run adds exactly its mapping, overwrites nothing and keeps the ledger injective. */
  lemma LedgerGrows(d: Database, manifest: Manifest, m: Book)
    requires GoodMapping(m) && Injective(d.ledger) && Passes(d, manifest, m)
    ensures var n := Migrated(d, manifest, m).ledger;
      Within(d.ledger, n) && Within(m, n) && n.Keys == d.ledger.Keys + m.Keys && Injective(n)
  {
    UnionGrows(d.ledger, m);
  }

  lemma UnionGrows(b: Book, m: Book)
    requires Injective(b) && Injective(m) && (forall x | x in m && x in b :: b[x] == m[x])
    requires forall x, y | x in b && x !in m && y in m :: m[y].id != b[x].id
    ensures Within(b, Recorded(b, m)) && Within(m, Recorded(b, m)) && Injective(Recorded(b, m))
  {}

  /** A tracked ledger ends up being exactly the mapping. */
  lemma {:induction false} TrackedLedgerIsMapping(d: Database, manifest: Manifest, m: Book)
    requires GoodMapping(m) && Passes(d, manifest, m) && manifest.tracked
    ensures Migrated(d, manifest, m).ledger == m
  {}

  lemma {:induction false} TrackedRunsStayUnchained(d: Database, manifest: Manifest, files: seq<Book>)
    requires (forall m | m in files :: GoodMapping(m)) && manifest.tracked
    requires Injective(d.ledger) && Unchained(d.ledger)
    ensures var n := RunAll(d, manifest, files).ledger;
      Injective(n) && Unchained(n) && Within(d.ledger, n)
  {
    if files != [] {
      var before, m := RunAll(d, manifest, files[..|files| - 1]), files[|files| - 1];
      TrackedRunsStayUnchained(d, manifest, files[..|files| - 1]);
      if Passes(before, manifest, m) {
        TrackedLedgerIsMapping(before, manifest, m);
        LedgerGrows(before, manifest, m);
      }
    }
  }

  /** Tracked or not, runs only ever add to the ledger and keep it injective. */
  lemma {:induction false} RunsOnlyGrowLedger(d: Database, manifest: Manifest, files: seq<Book>)
    requires (forall m | m in files :: GoodMapping(m)) && Injective(d.ledger)
    ensures Injective(RunAll(d, manifest, files).ledger) && Within(d.ledger, RunAll(d, manifest, files).ledger)
  {
    if files != [] {
      var before, m := RunAll(d, manifest, files[..|files| - 1]), files[|files| - 1];
      RunsOnlyGrowLedger(d, manifest, files[..|files| - 1]);
      if Passes(before, manifest, m) { LedgerGrows(before, manifest, m); }
    }
  }

  /** An untracked ledger stays free of chains exactly when the new mapping shares no end with the old entries. */
  lemma {:induction false} UntrackedStaysUnchainedIff(d: Database, manifest: Manifest, m: Book)
    requires GoodMapping(m) && Passes(d, manifest, m) && Unchained(d.ledger)
    ensures Unchained(Migrated(d, manifest, m).ledger) <==>
            (forall x, y | x in d.ledger && y in m :: d.ledger[x].id != y && m[y].id != x)
  {}

  /** Such a chain is accepted when the ledger is untracked and the database is otherwise empty. */
  lemma UntrackedChainIsAccepted(x: Id, y: Id, z: Id, kind: Kind)
    requires x != y && y != z && x != z && CanonicalV4(y) && CanonicalV4(z)
    ensures var m := map[y := Target(z, kind)];
      var d := Database(map[x := Target(y, kind)], [], [], [], []);
      y in m && GoodMapping(m) && Injective(d.ledger) && Unchained(d.ledger)
      && Passes(d, Manifest(false, true, {}), m) && !Unchained(Migrated(d, Manifest(false, true, {}), m).ledger)
  {
    var m := map[y := Target(z, kind)];
    var d := Database(map[x := Target(y, kind)], [], [], [], []);
    assert y in m && m != map[];
    var n := Migrated(Database(map[x := Target(y, kind)], [], [], [], []), Manifest(false, true, {}), m).ledger;
    assert x in n && y in n && n[x].id == y;
  }

  // ---- the accounts, and running the same file again ----

  /** Renaming merges no accounts, keeps kinds and leaves no source identity behind. */
  lemma {:induction false} RenamedAccounts(a: Accounts, prior: Book, m: Book, allowUnknown: bool)
    requires GoodMapping(m) && AccountsPass(a, prior, m, allowUnknown) && KeepsApart(a, m)
    ensures var n := Rename(a, m);
      |n| == |a| && (forall x | x in m :: x !in n)
        && forall x | x in a :: Renamed(m, x) in n && n[Renamed(m, x)] == a[x]
  {
    var n := Rename(a, m);
    SameSize(a.Keys, m, n.Keys);
    forall x | x in n ensures x !in m {
      var y :| y in a && Renamed(m, y) == x;
    }
  }

  lemma {:induction false} SameSize(s: set<Id>, m: Book, t: set<Id>)
    requires forall x, y | x in s && y in s && Renamed(m, x) == Renamed(m, y) :: x == y
    requires forall x | x in s :: Renamed(m, x) in t
    requires forall y | y in t :: exists x :: x in s && Renamed(m, x) == y
    ensures |t| == |s|
    decreases |s|
  {
    if s != {} {
      var x :| x in s;
      SameSize(s - {x}, m, t - {Renamed(m, x)});
    }
  }

  lemma AccountsRerun(a: Accounts, prior: Book, later: Book, m: Book, allowUnknown: bool)
    requires GoodMapping(m) && AccountsPass(a, prior, m, allowUnknown) && KeepsApart(a, m) && Within(m, later)
    ensures var n := Rename(a, m);
      AccountsPass(n, later, m, allowUnknown) && (forall x | x in n :: Renamed(m, x) == x)
  {
    var n := Rename(a, m);
    forall x | x in n ensures x !in m && CanonicalUuid(x) {
      var y :| y in a && Renamed(m, y) == x;
      assert y in m ==> CanonicalV4(m[y].id);
    }
    forall x | x in m && m[x].id in n ensures KindMatches(n[m[x].id], m[x].kind, allowUnknown) {
      var y :| y in a && Renamed(m, y) == m[x].id;
      assert y in m ==> y == x;
    }
  }

  lemma RenameNothing(a: Accounts, m: Book)
    requires forall x | x in a :: Renamed(m, x) == x
    ensures KeepsApart(a, m) && Rename(a, m) == a
  {}

  /** No identity column and no structured value still holds a source identity, which the script checks for columns. */
  lemma {:induction false} NoSourceInColumns(d: Database, manifest: Manifest, m: Book)
    requires GoodMapping(m) && Passes(d, manifest, m) && KindKeysApart(manifest.keys)
    ensures var n := Migrated(d, manifest, m);
      && (forall c | c in n.cells :: c.identity && c.id.Some? ==> c.id.value !in m)
      && (forall v | v in n.values :: !Mentions(manifest.keys, Sources(Ids(m)), v))
  {
    var n := Migrated(d, manifest, m);
    forall v | v in n.values ensures !Mentions(manifest.keys, Sources(Ids(m)), v) {
      var i :| 0 <= i < |n.values| && n.values[i] == v;
      assert v == RewriteValue(manifest.keys, m, d.values[i]);
      NoSourceRemainsFor(manifest.keys, Ids(m), d.values[i]);
    }
  }

  lemma CellsRerun(m: Book, c: Cell)
    requires GoodMapping(m)
    ensures RewriteCell(m, RewriteCell(m, c)) == RewriteCell(m, c)
  {}

  /** Applying the same file again changes nothing. */
  lemma {:induction false} RerunIsNoOp(d: Database, manifest: Manifest, m: Book)
    requires GoodMapping(m) && Injective(d.ledger) && Passes(d, manifest, m) && KindKeysApart(manifest.keys)
    ensures var n := Migrated(d, manifest, m);
      Passes(n, manifest, m) && Migrated(n, manifest, m) == n
  {
    var n := Migrated(d, manifest, m);
    LedgerGrows(d, manifest, m);
    if manifest.tracked { TrackedLedgerIsMapping(d, manifest, m); }
    BooksRerun(d, manifest, m, n);
    AccountTablesRerun(d, manifest, m, n);
    forall i | 0 <= i < |n.cells| ensures RewriteCell(m, n.cells[i]) == n.cells[i] { CellsRerun(m, d.cells[i]); }
    forall i | 0 <= i < |n.values| ensures RewriteValue(manifest.keys, m, n.values[i]) == n.values[i] {
      RewriteTwice(manifest.keys, Ids(m), d.values[i]);
    }
    MigratedParts(n, manifest, m, n);
  }

  lemma AccountTablesRerun(d: Database, manifest: Manifest, m: Book, n: Database)
    requires GoodMapping(m) && Injective(d.ledger) && Passes(d, manifest, m) && n == Migrated(d, manifest, m)
    ensures forall a | a in n.accounts :: AccountsPass(a, n.ledger, m, manifest.allowUnknownKind)
    ensures forall i | 0 <= i < |n.accounts| ::
      KeepsApart(n.accounts[i], m) && Rename(n.accounts[i], m) == n.accounts[i]
  {
    LedgerGrows(d, manifest, m);
    forall i | 0 <= i < |d.accounts|
      ensures AccountsPass(n.accounts[i], n.ledger, m, manifest.allowUnknownKind)
      ensures KeepsApart(n.accounts[i], m) && Rename(n.accounts[i], m) == n.accounts[i]
    {
      assert d.accounts[i] in d.accounts;
      CheckedAccountsStayApart(d.accounts[i], d.ledger, m, manifest.allowUnknownKind);
      AccountsRerun(d.accounts[i], d.ledger, n.ledger, m, manifest.allowUnknownKind);
      RenameNothing(n.accounts[i], m);
    }
  }

  lemma {:induction false} BooksRerun(d: Database, manifest: Manifest, m: Book, n: Database)
    requires BooksPass(d, manifest, m) && n.ledger == Recorded(d.ledger, m) && |n.managed| == |d.managed|
    requires manifest.tracked ==> n.ledger == m
    requires forall i | 0 <= i < |d.managed| :: n.managed[i] == Recorded(d.managed[i], m)
    ensures BooksPass(n, manifest, m) && Recorded(n.ledger, m) == n.ledger
    ensures forall i | 0 <= i < |n.managed| :: Recorded(n.managed[i], m) == n.managed[i]
  {
    forall b | b in n.managed ensures Within(b, m) {
      var i :| 0 <= i < |n.managed| && n.managed[i] == b;
      assert d.managed[i] in d.managed;
    }
  }

  // ---- what became of every row ----

  predicate Identifies(c: Cell, x: Id) { c.identity && c.id == Some(x) }

  /** Where a source stood its target stands; every other cell is as it was. */
  lemma CellsFollowMapping(d: Database, manifest: Manifest, m: Book)
    requires GoodMapping(m) && Passes(d, manifest, m)
    ensures var n := Migrated(d, manifest, m).cells;
      |n| == |d.cells| && forall i | 0 <= i < |n| ::
        && (forall x | x in m && Identifies(d.cells[i], x) :: Identifies(n[i], m[x].id))
        && ((forall x | x in m :: !Identifies(d.cells[i], x)) ==> n[i] == d.cells[i])
  {
    var n := Migrated(d, manifest, m).cells;
    forall i | 0 <= i < |n| && forall x | x in m :: !Identifies(d.cells[i], x) ensures n[i] == d.cells[i] {
      var c := d.cells[i];
      if c.identity && c.id.Some? && c.id.value in m { assert Identifies(c, c.id.value); }
    }
  }

  /** If no target was stored yet, cells that stood for one account still do, and cells that did not still do not. */
  lemma {:induction false} CellsStayApart(d: Database, manifest: Manifest, m: Book, i: nat, j: nat)
    requires GoodMapping(m) && Passes(d, manifest, m) && i < |d.cells| && j < |d.cells|
    requires d.cells[i].identity && d.cells[j].identity
    requires forall c, x | c in d.cells && x in m :: !Identifies(c, m[x].id)
    ensures var n := Migrated(d, manifest, m).cells; n[i].id == n[j].id <==> d.cells[i].id == d.cells[j].id
  {
    assert d.cells[i] in d.cells && d.cells[j] in d.cells;
    forall x | x in m ensures !Identifies(d.cells[i], m[x].id) && !Identifies(d.cells[j], m[x].id) {}
  }

  /** Every account is there under its target, or under its own identity, with its kind; and no other account is. */
  lemma AccountsFollowMapping(d: Database, manifest: Manifest, m: Book, i: nat)
    requires GoodMapping(m) && Passes(d, manifest, m) && i < |d.accounts|
    ensures var (a, ns) := (d.accounts[i], Migrated(d, manifest, m).accounts);
      |ns| == |d.accounts| && |ns[i]| == |a|
      && (forall x | x in a && x in m :: x !in ns[i] && m[x].id in ns[i] && ns[i][m[x].id] == a[x])
      && (forall x | x in a && x !in m :: x in ns[i] && ns[i][x] == a[x])
  {
    assert d.accounts[i] in d.accounts;
    CheckedAccountsStayApart(d.accounts[i], d.ledger, m, manifest.allowUnknownKind);
    RenamedAccounts(d.accounts[i], d.ledger, m, manifest.allowUnknownKind);
  }

  /** Every ledger ends up with its own entries and the whole mapping. */
  lemma {:induction false} LedgersHoldMapping(d: Database, manifest: Manifest, m: Book)
    requires GoodMapping(m) && Passes(d, manifest, m)
    ensures var n := Migrated(d, manifest, m);
      && |n.managed| == |d.managed| && Within(m, n.ledger) && Within(d.ledger, n.ledger)
      && (forall i | 0 <= i < |n.managed| :: Within(m, n.managed[i]) && Within(d.managed[i], n.managed[i]))
      && n.ledger.Keys == d.ledger.Keys + m.Keys
  {
    forall i | 0 <= i < |d.managed| ensures Within(d.managed[i], m) { assert d.managed[i] in d.managed; }
  }

  /** Structured values keep their shape, and change exactly where they mention a source. */
  lemma ValuesFollowMapping(d: Database, manifest: Manifest, m: Book, i: nat)
    requires GoodMapping(m) && Passes(d, manifest, m) && i < |d.values|
    ensures var n := Migrated(d, manifest, m).values;
      |n| == |d.values| && SameShape(d.values[i], n[i])
        && (n[i] == d.values[i] <==> !Mentions(manifest.keys, Sources(Ids(m)), d.values[i]))
  {
    RewriteKeepsShape(manifest.keys, Substitute(Ids(m)), d.values[i]);
    forall x ensures x in Ids(m) <==> Substitute(Ids(m))(x) != x {
      if x in m { assert m[x].id !in m; }
    }
    UnchangedIff(manifest.keys, Substitute(Ids(m)), Sources(Ids(m)), d.values[i]);
  }
}
