// Does the order in which removals, sign-outs and tokens reach Remind matter to whether an account is suspended?
module Suspension {
  import opened Wrappers
  import opened AccountState

  datatype SignInEvent =
    | Token(iat: int)        // a token issued at this whole second is presented
    | Removed(at: int)       // membership.access_removed
    | SignedOut(at: int)     // membership.signed_out, for any reason that ends every sign-in

  /** One event's effect on the row of an account of kind `k`. */
  function Step(r: Option<Row>, k: Kind, e: SignInEvent): Option<Row> {
    match e
    case Token(iat) => AfterToken(r, k, "", iat)
    case Removed(at) => ApplyPayload(r, MembershipAccessRemoved, Reread(None, None), at)
    case SignedOut(at) => ApplyPayload(r, MembershipSignedOut(false), Reread(None, None), at)
  }

  function Final(r: Option<Row>, k: Kind, es: seq<SignInEvent>): Option<Row> {
    if es == [] then r else Step(Final(r, k, es[..|es| - 1]), k, es[|es| - 1])
  }

  predicate Suspended(r: Option<Row>) { r.Some? && r.value.status == AccessRemoved }

  /** A row no sign-in event has touched, of kind `k` or not yet known to be. */
  predicate Untouched(r: Option<Row>, k: Kind) {
    r.None? || (r.value.status == Active && r.value.revokedBefore.None? && r.value.lastTokenIat.None?
                && (r.value.kind.None? || r.value.kind.value == k))
  }

  // ---- what the events say, whatever their order ----

  function Newest(a: Option<int>, b: int): Option<int> { Greatest(a, b) }

  function NewestToken(es: seq<SignInEvent>): (second: Option<int>) {
    if es == [] then None else
      var rest := NewestToken(es[..|es| - 1]);
      if es[|es| - 1].Token? then Newest(rest, es[|es| - 1].iat) else rest
  }

  function LatestRemoval(es: seq<SignInEvent>): (at: Option<int>) {
    if es == [] then None else
      var rest := LatestRemoval(es[..|es| - 1]);
      if es[|es| - 1].Removed? then Newest(rest, es[|es| - 1].at) else rest
  }

  function LatestSignOut(es: seq<SignInEvent>): (at: Option<int>) {
    if es == [] then None else
      var rest := LatestSignOut(es[..|es| - 1]);
      if es[|es| - 1].SignedOut? then Newest(rest, es[|es| - 1].at) else rest
  }

  /** The rule the documentation gives: some removal is not older than the newest token. */
  predicate RemovalPrevails(es: seq<SignInEvent>) {
    LatestRemoval(es).Some? && (NewestToken(es).None? || NewestToken(es).value * SECOND <= LatestRemoval(es).value)
  }

  /** The newest token outlives every removal, but a sign-out in or after its second can still get it refused. */
  predicate Contested(es: seq<SignInEvent>) {
    && LatestRemoval(es).Some? && NewestToken(es).Some? && LatestRemoval(es).value < NewestToken(es).value * SECOND
    && LatestSignOut(es).Some? && NewestToken(es).value <= LatestSignOut(es).value / SECOND
  }

  // ---- the row tracks the maxima ----

  predicate Sane(r: Option<Row>, k: Kind) {
    r.Some? ==> r.value.status != Deleted && (r.value.kind.None? || r.value.kind.value == k)
  }

  predicate Refuses(r: Option<Row>, iat: int) {
    r.Some? && r.value.revokedBefore.Some? && iat <= r.value.revokedBefore.value / SECOND
  }

  /** What one event changes of the fields that decide suspension. */
  lemma StepEffect(r: Option<Row>, k: Kind, e: SignInEvent)
    requires Sane(r, k)
    ensures Sane(Step(r, k, e), k) && Step(r, k, e).Some?
    ensures var row := Step(r, k, e).value;
            var cutoff := if r.Some? then r.value.revokedBefore else None;
            var last := if r.Some? then r.value.lastTokenIat else None;
            match e
            case Token(iat) =>
              if Refuses(r, iat) then r == Some(row) else
                row.status == Active && row.revokedBefore == cutoff && row.lastTokenIat == Newest(last, iat * SECOND)
            case Removed(at) => row.revokedBefore == Newest(cutoff, at) && row.lastTokenIat == last
                                && (row.status == AccessRemoved <==> Suspended(r) || last.None? || last.value <= at)
            case SignedOut(at) => row.revokedBefore == Newest(cutoff, at) && row.lastTokenIat == last
                                  && (row.status == AccessRemoved <==> Suspended(r))
  {}

  ghost predicate Tracks(r: Option<Row>, es: seq<SignInEvent>) {
    && (r.None? ==> es == [])
    && (r.Some? ==>
          var cutoff, last := r.value.revokedBefore, r.value.lastTokenIat;
          && (LatestRemoval(es).Some? ==> cutoff.Some? && LatestRemoval(es).value <= cutoff.value)
          && (LatestSignOut(es).Some? ==> cutoff.Some? && LatestSignOut(es).value <= cutoff.value)
          && (cutoff.Some? ==> cutoff == LatestRemoval(es) || cutoff == LatestSignOut(es))
          && (last.Some? ==> NewestToken(es).Some? && last.value <= NewestToken(es).value * SECOND))
  }

  lemma {:induction false} FinalTracks(r: Option<Row>, k: Kind, es: seq<SignInEvent>)
    requires Untouched(r, k)
    ensures Sane(Final(r, k, es), k) && Tracks(Final(r, k, es), es)
  {
    if es != [] {
      FinalTracks(r, k, es[..|es| - 1]);
      StepEffect(Final(r, k, es[..|es| - 1]), k, es[|es| - 1]);
    }
  }

  lemma {:induction false} PrevailingRemovalSuspends(r: Option<Row>, k: Kind, es: seq<SignInEvent>)
    requires Untouched(r, k) && RemovalPrevails(es)
    ensures Suspended(Final(r, k, es))
  {
    var front := es[..|es| - 1];
    FinalTracks(r, k, front);
    StepEffect(Final(r, k, front), k, es[|es| - 1]);
    if RemovalPrevails(front) {
      PrevailingRemovalSuspends(r, k, front);
    }
  }

  lemma {:induction false} NoRemovalNoSuspension(r: Option<Row>, k: Kind, es: seq<SignInEvent>)
    requires Untouched(r, k) && LatestRemoval(es).None?
    ensures !Suspended(Final(r, k, es))
  {
    if es != [] {
      NoRemovalNoSuspension(r, k, es[..|es| - 1]);
    }
  }

  /** A token newer than every removal and out of every sign-out's reach is accepted, and keeps the account active. */
  lemma {:induction false} UncontestedTokenPrevails(r: Option<Row>, k: Kind, es: seq<SignInEvent>)
    requires Untouched(r, k) && NewestToken(es).Some?
    requires LatestRemoval(es).Some? ==> LatestRemoval(es).value < NewestToken(es).value * SECOND
    requires LatestSignOut(es).Some? ==> LatestSignOut(es).value / SECOND < NewestToken(es).value
    ensures var row := Final(r, k, es);
            row.Some? && row.value.status == Active && row.value.lastTokenIat == Some(NewestToken(es).value * SECOND)
  {
    var front := es[..|es| - 1];
    FinalTracks(r, k, front);
    StepEffect(Final(r, k, front), k, es[|es| - 1]);
    if NewestToken(front) == NewestToken(es) {
      UncontestedTokenPrevails(r, k, front);
    }
  }

  // ---- permutations ----

  lemma {:induction false} MaximaIgnoreOrder(es: seq<SignInEvent>, p: seq<SignInEvent>)
    requires multiset(es) == multiset(p)
    ensures NewestToken(es) == NewestToken(p)
    ensures LatestRemoval(es) == LatestRemoval(p)
    ensures LatestSignOut(es) == LatestSignOut(p)
  {
    forall e ensures e in es <==> e in p {
      assert e in multiset(es) <==> e in multiset(p);
    }
    MaximaAttained(es);
    MaximaAttained(p);
  }

  lemma {:induction false} MaximaAttained(es: seq<SignInEvent>)
    ensures var m := NewestToken(es);
      (m.Some? ==> Token(m.value) in es) && forall t | Token(t) in es :: m.Some? && t <= m.value
    ensures var m := LatestRemoval(es);
      (m.Some? ==> Removed(m.value) in es) && forall t | Removed(t) in es :: m.Some? && t <= m.value
    ensures var m := LatestSignOut(es);
      (m.Some? ==> SignedOut(m.value) in es) && forall t | SignedOut(t) in es :: m.Some? && t <= m.value
  {
    if es != [] {
      MaximaAttained(es[..|es| - 1]);
      assert es == es[..|es| - 1] + [es[|es| - 1]];
    }
  }

  datatype Sort = Tokens | Removals | SignOuts

  predicate IsOf(e: SignInEvent, s: Sort) {
    match s case Tokens => e.Token? case Removals => e.Removed? case SignOuts => e.SignedOut?
  }

  function Only(es: seq<SignInEvent>, s: Sort): (part: seq<SignInEvent>)
    ensures forall e | e in part :: IsOf(e, s)
  {
    if es == [] then [] else
      var rest := Only(es[..|es| - 1], s);
      if IsOf(es[|es| - 1], s) then rest + [es[|es| - 1]] else rest
  }

  lemma {:induction false} PartsMakeWhole(es: seq<SignInEvent>)
    ensures multiset(Only(es, Tokens)) + multiset(Only(es, Removals)) + multiset(Only(es, SignOuts)) == multiset(es)
  {
    if es != [] {
      PartsMakeWhole(es[..|es| - 1]);
      assert es == es[..|es| - 1] + [es[|es| - 1]];
    }
  }

  lemma {:induction false} FinalSplits(r: Option<Row>, k: Kind, a: seq<SignInEvent>, b: seq<SignInEvent>)
    ensures Final(r, k, a + b) == Final(Final(r, k, a), k, b)
  {
    if b == [] {
      assert a + b == a;
    } else {
      FinalSplits(r, k, a, b[..|b| - 1]);
      assert (a + b)[..|a + b| - 1] == a + b[..|b| - 1];
    }
  }

  lemma {:induction false} SignOutsLeaveStatus(r: Option<Row>, k: Kind, es: seq<SignInEvent>)
    requires r.Some? && forall e | e in es :: e.SignedOut?
    ensures Final(r, k, es).Some? && Final(r, k, es).value.status == r.value.status
  {
    if es != [] {
      SignOutsLeaveStatus(r, k, es[..|es| - 1]);
      assert es[|es| - 1] in es;
    }
  }

  lemma {:induction false} RefusedTokensChangeNothing(r: Option<Row>, k: Kind, es: seq<SignInEvent>)
    requires r.Some? && r.value.revokedBefore.Some?
    requires forall e | e in es :: e.Token? && e.iat <= r.value.revokedBefore.value / SECOND
    ensures Final(r, k, es) == r
  {
    if es != [] {
      RefusedTokensChangeNothing(r, k, es[..|es| - 1]);
      assert es[|es| - 1] in es;
    }
  }

  /** Tokens first, sign-outs last: the newest token is accepted and survives. */
  lemma ContestedCanStayActive(r: Option<Row>, k: Kind, es: seq<SignInEvent>) returns (p: seq<SignInEvent>)
    requires Untouched(r, k) && Contested(es)
    ensures multiset(p) == multiset(es) && !Suspended(Final(r, k, p))
  {
    var early, late := Only(es, Tokens) + Only(es, Removals), Only(es, SignOuts);
    p := early + late;
    PartsMakeWhole(es);
    MaximaIgnoreOrder(es, p);
    MaximaAttained(es);
    MaximaAttained(p);
    MaximaAttained(early);
    UncontestedTokenPrevails(r, k, early);
    FinalSplits(r, k, early, late);
    SignOutsLeaveStatus(Final(r, k, early), k, late);
  }

  /** Tokens last: the sign-out's cutoff refuses every one of them, so the removal stands. */
  lemma {:induction false} ContestedCanSuspend(r: Option<Row>, k: Kind, es: seq<SignInEvent>)
    returns (p: seq<SignInEvent>)
    requires Untouched(r, k) && Contested(es)
    ensures multiset(p) == multiset(es) && Suspended(Final(r, k, p))
  {
    var early, late := Only(es, SignOuts) + Only(es, Removals), Only(es, Tokens);
    p := early + late;
    PartsMakeWhole(es);
    MaximaIgnoreOrder(es, p);
    MaximaAttained(es);
    MaximaAttained(p);
    MaximaAttained(early);
    PrevailingRemovalSuspends(r, k, early);
    FinalTracks(r, k, early);
    FinalSplits(r, k, early, late);
    forall e | e in late ensures e in es {
      assert e in p && e in multiset(p);
    }
    RefusedTokensChangeNothing(Final(r, k, early), k, late);
  }

  /** Unless contested, the documented rule decides, in every order of arrival. */
  lemma SuspendedIffRemovalPrevails(r: Option<Row>, k: Kind, es: seq<SignInEvent>)
    requires Untouched(r, k) && !Contested(es)
    ensures Suspended(Final(r, k, es)) <==> RemovalPrevails(es)
  {
    if RemovalPrevails(es) {
      PrevailingRemovalSuspends(r, k, es);
    } else if LatestRemoval(es).None? {
      NoRemovalNoSuspension(r, k, es);
    } else {
      UncontestedTokenPrevails(r, k, es);
    }
  }

  ghost predicate OrderIndependent(r: Option<Row>, k: Kind, es: seq<SignInEvent>) {
    forall p | multiset(p) == multiset(es) :: Suspended(Final(r, k, p)) == Suspended(Final(r, k, es))
  }

  /** Exactly when: arrival order never matters, except to a contested batch, where it does. */
  lemma OrderIndependentIffUncontested(r: Option<Row>, k: Kind, es: seq<SignInEvent>)
    requires Untouched(r, k)
    ensures OrderIndependent(r, k, es) <==> !Contested(es)
  {
    if Contested(es) {
      var p := ContestedCanStayActive(r, k, es);
      var q := ContestedCanSuspend(r, k, es);
      assert Suspended(Final(r, k, p)) != Suspended(Final(r, k, q));
    } else {
      forall p | multiset(p) == multiset(es) ensures Suspended(Final(r, k, p)) == Suspended(Final(r, k, es)) {
        MaximaIgnoreOrder(es, p);
        SuspendedIffRemovalPrevails(r, k, es);
        SuspendedIffRemovalPrevails(r, k, p);
      }
    }
  }

  /** A batch where order does matter: removed at 9.5 s, a token of second 10, signed out at 10.2 s. */
  lemma {:induction false} ContestedBatch(k: Kind)
    ensures var (token, removed, out) := (Token(10), Removed(9_500_000), SignedOut(10_200_000));
      && Contested([token, removed, out])
      && !Suspended(Final(None, k, [token, removed, out]))
      && Suspended(Final(None, k, [out, removed, token]))
  {
    var (token, removed, out) := (Token(10), Removed(9_500_000), SignedOut(10_200_000));
    assert [token, removed, out][..2] == [token, removed] && [token, removed][..1] == [token] && [token][..0] == [];
    assert [out, removed, token][..2] == [out, removed] && [out, removed][..1] == [out] && [out][..0] == [];
    assert Final(None, k, [token]) == Step(None, k, token);
    assert Final(None, k, [token, removed]) == Step(Step(None, k, token), k, removed);
    assert Final(None, k, [out]) == Step(None, k, out);
    assert Final(None, k, [out, removed]) == Step(Step(None, k, out), k, removed);
    assert NewestToken([token]) == Some(10) && LatestRemoval([token]) == None && LatestSignOut([token]) == None;
    assert NewestToken([token, removed]) == Some(10) && LatestRemoval([token, removed]) == Some(9_500_000);
  }
}
