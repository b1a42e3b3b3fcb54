// Unordered, repeated data events about one Silicon, applied without a lookup: which state do they settle on?
module Convergence {
  import opened Wrappers
  import opened AccountState

  datatype Event = Event(payload: Payload, at: int)

  /** One delivery whose re-read failed. */
  function Deliver(r: Option<Row>, e: Event): Option<Row> {
    ApplyPayload(r, e.payload, Reread(None, None), e.at)
  }

  function DeliverAll(r: Option<Row>, es: seq<Event>): Option<Row>
    decreases |es|
  {
    if es == [] then r else DeliverAll(Deliver(r, es[0]), es[1..])
  }

  predicate IsUpdate(e: Event) { e.payload.AccountUpdated? && e.payload.account.Some? }
  predicate IsMove(e: Event) { e.payload.CustodianChanged? && e.payload.to.Some? }
  predicate IsRename(e: Event) { e.payload.AccountIdChanged? }

  /** The events that report something about the custodian, and what they report. */
  predicate Observes(e: Event) { IsUpdate(e) || IsMove(e) }

  function Reported(e: Event): Option<Custodian>
    requires Observes(e)
  {
    if IsUpdate(e) then e.payload.account.value.custodian else e.payload.to
  }

  function Version(e: Event): int
    requires IsUpdate(e)
  {
    e.payload.account.value.version
  }

  /** A data event about an account of kind `k`; only Silicons have custodians to change. */
  predicate About(e: Event, k: Kind) {
    || (IsRename(e) && (e.payload.kind.None? || e.payload.kind.value == k))
    || (e.payload.AccountUpdated? && (IsUpdate(e) ==> e.payload.account.value.kind == k))
    || (e.payload.CustodianChanged? && k == Silicon)
  }

  /** Distinct events happen at distinct instants, and account versions grow with time. */
  predicate Coherent(a: Event, b: Event) {
    && a.at != b.at
    && (IsUpdate(a) && IsUpdate(b) ==> if a.at < b.at then Version(a) < Version(b) else Version(b) < Version(a))
  }

  ghost predicate AllCoherent(es: seq<Event>) { forall a, b | a in es && b in es && a != b :: Coherent(a, b) }

  ghost predicate History(es: seq<Event>, k: Kind) { AllCoherent(es) && forall e | e in es :: About(e, k) }

  /** A row of kind `k`, or not yet known to be. */
  predicate OfKind(r: Option<Row>, k: Kind) { r.Some? ==> r.value.kind.None? || r.value.kind.value == k }

  /** The update says who the custodian is, or is about an account that has none. */
  predicate Complete(e: Event, k: Kind) { IsUpdate(e) && k == Silicon ==> Reported(e).Some? }

  // ---- redelivery and reordering of single events ----

  lemma RedeliveryChangesNothing(r: Option<Row>, e: Event)
    ensures Deliver(Deliver(r, e), e) == Deliver(r, e)
  {}

  lemma {:induction false} RenamesCommute(r: Option<Row>, k: Kind, a: Event, b: Event)
    requires OfKind(r, k) && About(a, k) && About(b, k) && Coherent(a, b) && IsRename(a) && IsRename(b)
    ensures Deliver(Deliver(r, a), b) == Deliver(Deliver(r, b), a)
  {}

  lemma {:induction false} RenameAndOtherCommute(r: Option<Row>, k: Kind, a: Event, b: Event)
    requires OfKind(r, k) && About(a, k) && About(b, k) && Coherent(a, b) && IsRename(a) && !IsRename(b)
    ensures Deliver(Deliver(r, a), b) == Deliver(Deliver(r, b), a)
  {}

  lemma UpdatesCommute(r: Option<Row>, k: Kind, a: Event, b: Event)
    requires OfKind(r, k) && About(a, k) && About(b, k) && Coherent(a, b) && a.at < b.at
    requires IsUpdate(a) && IsUpdate(b) && Complete(b, k)
    ensures Deliver(Deliver(r, a), b) == Deliver(Deliver(r, b), a)
  {}

  lemma UpdateAndMoveCommute(r: Option<Row>, a: Event, b: Event)
    requires OfKind(r, Silicon) && About(a, Silicon) && About(b, Silicon) && Coherent(a, b)
    requires IsUpdate(a) && Reported(a).Some? && b.payload.CustodianChanged?
    ensures Deliver(Deliver(r, a), b) == Deliver(Deliver(r, b), a)
  {}

  lemma MovesCommute(r: Option<Row>, a: Event, b: Event)
    requires OfKind(r, Silicon) && Coherent(a, b) && a.payload.CustodianChanged? && b.payload.CustodianChanged?
    ensures Deliver(Deliver(r, a), b) == Deliver(Deliver(r, b), a)
  {}

  /** Two coherent events commute when the updates among them about a Silicon name its custodian. */
  lemma EventsCommute(r: Option<Row>, k: Kind, a: Event, b: Event)
    requires OfKind(r, k) && About(a, k) && About(b, k) && Coherent(a, b) && Complete(a, k) && Complete(b, k)
    ensures Deliver(Deliver(r, a), b) == Deliver(Deliver(r, b), a)
  {
    if IsRename(a) {
      if IsRename(b) { RenamesCommute(r, k, a, b); } else { RenameAndOtherCommute(r, k, a, b); }
    } else if IsRename(b) {
      RenameAndOtherCommute(r, k, b, a);
    } else if IsUpdate(a) && IsUpdate(b) {
      if a.at < b.at { UpdatesCommute(r, k, a, b); } else { UpdatesCommute(r, k, b, a); }
    } else if IsUpdate(a) && b.payload.CustodianChanged? {
      UpdateAndMoveCommute(r, a, b);
    } else if IsUpdate(b) && a.payload.CustodianChanged? {
      UpdateAndMoveCommute(r, b, a);
    } else if a.payload.CustodianChanged? && b.payload.CustodianChanged? {
      MovesCommute(r, a, b);
    }
  }

  // ---- whole histories ----

  function Without(es: seq<Event>, e: Event): (rest: seq<Event>)
    ensures e !in rest && |rest| <= |es|
    ensures e in es ==> |rest| < |es|
    ensures forall x | x != e :: x in rest <==> x in es
  {
    if es == [] then [] else
      var rest := Without(es[1..], e);
      assert es == [es[0]] + es[1..];
      if es[0] == e then rest else [es[0]] + rest
  }

  ghost predicate SameEvents(es: seq<Event>, p: seq<Event>) {
    forall e :: e in es <==> e in p
  }

  /** Any event of a history can be delivered first and its repetitions dropped. */
  lemma {:induction false} DeliverFirst(r: Option<Row>, k: Kind, es: seq<Event>, e: Event)
    requires OfKind(r, k) && History(es, k) && (forall x | x in es :: Complete(x, k)) && e in es
    ensures DeliverAll(r, es) == DeliverAll(Deliver(r, e), Without(es, e))
    decreases |es|
  {
    var head, tail := es[0], es[1..];
    assert head in es && forall x | x in tail :: x in es;
    if head == e {
      if e in tail {
        DeliverFirst(Deliver(r, e), k, tail, e);
        RedeliveryChangesNothing(r, e);
      } else {
        AbsentChangesNothing(tail, e);
      }
    } else {
      DeliverFirst(Deliver(r, head), k, tail, e);
      EventsCommute(r, k, head, e);
      assert Without(es, e)[1..] == Without(tail, e);
    }
  }

  lemma {:induction false} AbsentChangesNothing(es: seq<Event>, e: Event)
    requires e !in es
    ensures Without(es, e) == es
  {
    if es != [] {
      AbsentChangesNothing(es[1..], e);
    }
  }

  /** Any reordering and any repetition of the same events leaves the same row. */
  lemma {:induction false} HistoriesConverge(r: Option<Row>, k: Kind, es: seq<Event>, p: seq<Event>)
    requires OfKind(r, k) && History(es, k) && (forall e | e in es :: Complete(e, k)) && SameEvents(es, p)
    ensures DeliverAll(r, es) == DeliverAll(r, p)
    decreases |es|
  {
    if es != [] || p != [] {
      var e := if es != [] then es[0] else p[0];
      DeliverFirst(r, k, es, e);
      DeliverFirst(r, k, p, e);
      HistoriesConverge(Deliver(r, e), k, Without(es, e), Without(p, e));
    }
  }

  // ---- the newest event of each family wins ----

  datatype Family = Ids | Profiles | Custodians

  predicate Within(e: Event, f: Family) {
    match f case Ids => IsRename(e) case Profiles => IsUpdate(e) case Custodians => Observes(e)
  }

  /** Nothing on the row would stop `m` from taking effect in its family. */
  predicate OlderThan(r: Option<Row>, m: Event, f: Family) {
    r.Some? ==>
      && (f == Ids ==> Before(r.value.idObservedAt, m.at))
      && (f == Custodians ==> Before(r.value.custodianObservedAt, m.at))
      && (IsUpdate(m) ==> r.value.profileVersion < Version(m))
  }

  predicate Shows(r: Option<Row>, m: Event, f: Family)
    requires Within(m, f)
  {
    r.Some? &&
    match f
    case Ids => r.value.publicId == m.payload.newId && r.value.idObservedAt == Some(m.at)
    case Profiles =>
      && r.value.displayName == m.payload.account.value.displayName
      && r.value.pfpUrl == m.payload.account.value.pfpUrl && r.value.profileVersion == Version(m)
    case Custodians => r.value.custodian == Reported(m) && r.value.custodianObservedAt == Some(m.at)
  }

  ghost predicate NewestIn(es: seq<Event>, m: Event, f: Family) {
    m in es && Within(m, f) && forall e | e in es && Within(e, f) :: e.at <= m.at
  }

  /** What a family needs of the events: that none deletes the account and, for custodians only, who they are about. */
  ghost predicate Decides(r: Option<Row>, es: seq<Event>, m: Event, f: Family) {
    && (forall e | e in es :: !e.payload.AccountDeleted?)
    && (f == Custodians ==> Names(m) && OfKind(r, Silicon) && forall e | e in es :: About(e, Silicon))
  }

  lemma {:induction false} OneEventStays(r: Option<Row>, e: Event, m: Event, f: Family)
    requires Within(m, f) && Shows(r, m, f) && Decides(r, [e], m, f)
    requires (e == m || Coherent(e, m)) && (Within(e, f) ==> e.at <= m.at)
    ensures Shows(Deliver(r, e), m, f)
    ensures f == Custodians ==> OfKind(Deliver(r, e), Silicon)
  {
    assert e in [e];
  }

  lemma {:induction false} NewestStays(r: Option<Row>, es: seq<Event>, m: Event, f: Family)
    requires Within(m, f) && Shows(r, m, f) && Decides(r, es, m, f)
    requires forall e | e in es :: (e == m || Coherent(e, m)) && (Within(e, f) ==> e.at <= m.at)
    ensures Shows(DeliverAll(r, es), m, f)
    decreases |es|
  {
    if es != [] {
      assert es[0] in es && forall x | x in es[1..] :: x in es;
      OneEventStays(r, es[0], m, f);
      NewestStays(Deliver(r, es[0]), es[1..], m, f);
    }
  }

  lemma {:induction false} NewestLands(r: Option<Row>, es: seq<Event>, m: Event, f: Family)
    requires NewestIn(es, m, f) && OlderThan(r, m, f) && (IsUpdate(m) ==> Version(m) > 0) && Decides(r, es, m, f)
    requires forall e | e in es :: e == m || Coherent(e, m)
    ensures Shows(DeliverAll(r, es), m, f)
    decreases |es|
  {
    assert es[0] in es && forall x | x in es[1..] :: x in es;
    if es[0] == m {
      NewestStays(Deliver(r, m), es[1..], m, f);
    } else {
      NewestLands(Deliver(r, es[0]), es[1..], m, f);
    }
  }

  /**
   * In every order and with every repetition, id and profile end as their newest event says, for accounts of either
   * kind and whatever updates say of custodians; so does a Silicon's custodian if its newest report names one.
   */
  lemma NewestWins(r: Option<Row>, es: seq<Event>, m: Event, f: Family)
    requires AllCoherent(es) && NewestIn(es, m, f) && OlderThan(r, m, f) && (IsUpdate(m) ==> Version(m) > 0)
    requires Decides(r, es, m, f)
    ensures Shows(DeliverAll(r, es), m, f)
  {
    NewestLands(r, es, m, f);
  }

  // ---- updates that name no custodian ----

  function CustodianOf(r: Option<Row>): Option<Custodian> {
    if r.Some? then r.value.custodian else None
  }

  /** On a new account, every reordering and repetition of the events ends with the same custodian. */
  ghost predicate CustodianSettles(es: seq<Event>) {
    forall p | SameEvents(es, p) :: CustodianOf(DeliverAll(None, p)) == CustodianOf(DeliverAll(None, es))
  }

  predicate Names(e: Event) { Observes(e) && Reported(e).Some? }

  /** The newest report names a custodian, or no report does. */
  ghost predicate NewestReportNames(es: seq<Event>) {
    (exists m :: NewestIn(es, m, Custodians) && Names(m)) || (forall e | e in es :: !Names(e))
  }

  lemma {:induction false} NewestReportStays(r: Option<Row>, es: seq<Event>, m: Event)
    requires Observes(m) && Shows(r, m, Custodians) && OfKind(r, Silicon)
    requires forall e | e in es :: About(e, Silicon) && (e == m || Coherent(e, m)) && (Observes(e) ==> e.at <= m.at)
    ensures Shows(DeliverAll(r, es), m, Custodians)
    decreases |es|
  {
    if es != [] {
      assert es[0] in es && forall x | x in es[1..] :: x in es;
      NewestReportStays(Deliver(r, es[0]), es[1..], m);
    }
  }

  lemma {:induction false} NamelessStayNone(r: Option<Row>, es: seq<Event>)
    requires CustodianOf(r).None? && forall e | e in es :: About(e, Silicon) && !Names(e)
    ensures CustodianOf(DeliverAll(r, es)).None?
    decreases |es|
  {
    if es != [] {
      assert es[0] in es && forall x | x in es[1..] :: x in es;
      NamelessStayNone(Deliver(r, es[0]), es[1..]);
    }
  }

  lemma {:induction false} NamedStaysSome(r: Option<Row>, es: seq<Event>)
    requires CustodianOf(r).Some? && forall e | e in es :: About(e, Silicon)
    ensures CustodianOf(DeliverAll(r, es)).Some?
    decreases |es|
  {
    if es != [] {
      assert es[0] in es && forall x | x in es[1..] :: x in es;
      NamedStaysSome(Deliver(r, es[0]), es[1..]);
    }
  }

  lemma {:induction false} NewestExists(es: seq<Event>, f: Family) returns (m: Event)
    requires exists e :: e in es && Within(e, f)
    ensures NewestIn(es, m, f)
  {
    var front, last := es[..|es| - 1], es[|es| - 1];
    assert es == front + [last];
    if exists e :: e in front && Within(e, f) {
      m := NewestExists(front, f);
      if Within(last, f) && last.at > m.at { m := last; }
    } else {
      m := last;
    }
  }

  lemma RearrangedEvents(es: seq<Event>, m: Event, named: Event)
    requires m in es && named in es
    ensures SameEvents(es, [m] + Without(es, m)) && SameEvents(es, [named] + Without(es, m) + [m])
  {}

  /** An update without a custodian still moves the observation time, so an older custodian change can be lost. */
  lemma {:induction false} NamelessNewestLosesName(es: seq<Event>, m: Event, named: Event)
    requires History(es, Silicon) && (forall e | e in es && IsUpdate(e) :: Version(e) > 0)
    requires NewestIn(es, m, Custodians) && !Names(m) && named in es && Names(named)
    ensures !CustodianSettles(es)
  {
    var rest := Without(es, m);
    var first, last := [m] + rest, [named] + rest + [m];
    RearrangedEvents(es, m, named);
    assert first[1..] == rest && last[1..] == rest + [m];
    NewestReportStays(Deliver(None, m), rest, m);
    NamedStaysSome(Deliver(None, named), rest + [m]);
    assert CustodianOf(DeliverAll(None, first)).None? && CustodianOf(DeliverAll(None, last)).Some?;
  }

  /** Exactly when: the custodian settles if and only if the newest report names one, or none ever does. */
  lemma CustodianSettlesIffNewestNames(es: seq<Event>)
    requires History(es, Silicon) && (forall e | e in es && IsUpdate(e) :: Version(e) > 0)
    ensures CustodianSettles(es) <==> NewestReportNames(es)
  {
    if NewestReportNames(es) {
      forall p | SameEvents(es, p) ensures CustodianOf(DeliverAll(None, p)) == CustodianOf(DeliverAll(None, es)) {
        if m :| NewestIn(es, m, Custodians) && Names(m) {
          NewestLands(None, es, m, Custodians);
          NewestLands(None, p, m, Custodians);
        } else {
          NamelessStayNone(None, es);
          NamelessStayNone(None, p);
        }
      }
    } else {
      var named :| named in es && Names(named);
      assert Within(named, Custodians);
      var m := NewestExists(es, Custodians);
      NamelessNewestLosesName(es, m, named);
    }
  }
}
