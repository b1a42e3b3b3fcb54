// Whether a deleted account stays anonymous (src/infrastructure/identity.rs:809-833,
// src/infrastructure/account_events.rs:324-344).
module Anonymity {
  import opened Wrappers
  import opened AccountState

  /** Nothing is left that says who the account was. */
  predicate Anonymous(row: Row) {
    row.publicId == "" && row.displayName == "" && row.pfpUrl == "" && row.custodian.None?
  }

  /** Whatever deletes an account makes it anonymous, and refuses every token issued until then. */
  lemma {:induction false} DeletionAnonymises(r: Option<Row>, h: Happening)
    requires r.Some? ==> r.value.status != Deleted
    requires After(r, h).Some? && After(r, h).value.status == Deleted
    ensures Anonymous(After(r, h).value) && After(r, h).value.revokedBefore.Some?
    ensures h.Delivered? ==> h.at <= After(r, h).value.revokedBefore.value
  {}

  /** An event that says again who a deleted account was, and that no re-read stands in for. */
  predicate NamesAgain(row: Row, h: Happening) {
    h.Delivered? &&
    match h.payload
    case AccountIdChanged(newId, _) => h.reread.summary.None? && Before(row.idObservedAt, h.at) && newId != ""
    case AccountUpdated(Some(account)) =>
      h.reread.member.None? && row.profileVersion < account.version &&
      (account.displayName != "" || account.pfpUrl != "" ||
       (account.custodian.Some? && Before(row.custodianObservedAt, h.at)
        && (if row.kind.Some? then row.kind.value else account.kind) == Silicon))
    case CustodianChanged(Some(_)) =>
      h.reread.summary.None? && Before(row.custodianObservedAt, h.at) && (row.kind.None? || row.kind.value == Silicon)
    case _ => false
  }

  /** A deleted account stays anonymous unless such an event arrives. */
  lemma {:induction false} StaysAnonymousIff(row: Row, h: Happening)
    requires row.status == Deleted && Anonymous(row)
    ensures var after := After(Some(row), h);
      after.Some? && after.value.status == Deleted && (Anonymous(after.value) <==> !NamesAgain(row, h))
  {}

  predicate AnonymousThroughout(r: Option<Row>, hs: seq<Happening>)
    decreases |hs|
  {
    r.Some? && Anonymous(r.value) && (hs != [] ==> AnonymousThroughout(After(r, hs[0]), hs[1..]))
  }

  predicate NeverNamedAgain(r: Option<Row>, hs: seq<Happening>)
    decreases |hs|
  {
    hs != [] ==> r.Some? && !NamesAgain(r.value, hs[0]) && NeverNamedAgain(After(r, hs[0]), hs[1..])
  }

  /** Over any run of happenings: it stays anonymous throughout exactly when none of them names it again. */
  lemma {:induction false} AnonymousThroughoutIff(row: Row, hs: seq<Happening>)
    requires row.status == Deleted && Anonymous(row)
    ensures AnonymousThroughout(Some(row), hs) <==> NeverNamedAgain(Some(row), hs)
    decreases |hs|
  {
    if hs != [] {
      StaysAnonymousIff(row, hs[0]);
      if !NamesAgain(row, hs[0]) { AnonymousThroughoutIff(After(Some(row), hs[0]).value, hs[1..]); }
    }
  }

  /** Every re-read that an event asks for succeeded. */
  predicate WellRead(h: Happening) {
    h.Delivered? ==>
      && (h.payload.AccountUpdated? ==> h.reread.member.Some?)
      && (h.payload.AccountIdChanged? || h.payload.CustodianChanged? ==> h.reread.summary.Some?)
  }

  /** While Silicon Accounts can be read, a deleted account stays anonymous. */
  lemma {:induction false} WellReadStaysAnonymous(row: Row, hs: seq<Happening>)
    requires row.status == Deleted && Anonymous(row) && forall h | h in hs :: WellRead(h)
    ensures AnonymousThroughout(Some(row), hs)
    decreases |hs|
  {
    if hs != [] {
      assert hs[0] in hs && !NamesAgain(row, hs[0]);
      StaysAnonymousIff(row, hs[0]);
      WellReadStaysAnonymous(After(Some(row), hs[0]).value, hs[1..]);
    }
  }

  /**
   * While it cannot, one late rename is enough: whatever was known of the account, after its deletion it goes by that
   * name again, and no later token, lookup or member record takes the name away.
   */
  lemma {:induction false} LateRenameNamesTheDeleted(r: Option<Row>, newId: string, deletedAt: int, renamedAt: int)
    requires newId != ""
    requires r.Some? ==> r.value.status != Deleted && Before(r.value.idObservedAt, renamedAt)
    ensures var none := Reread(None, None);
      var deleted := After(r, Delivered(AccountDeleted, none, deletedAt));
      var named := After(deleted, Delivered(AccountIdChanged(newId, None), none, renamedAt));
      && deleted.Some? && Anonymous(deleted.value)
      && named.Some? && named.value.status == Deleted && named.value.publicId == newId
      && (forall kind, id, iat :: After(named, Presented(kind, id, iat)) == named)
      && (forall s: Summary, now | !s.deleted :: After(named, LookedUp(s, now)) == named)
      && (forall member :: After(named, ReadMember(member)) == named)
  {}
}
