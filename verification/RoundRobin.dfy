// The worker's rotation through test environments (src/worker/mod.rs).
module RoundRobin {
  import opened Wrappers
  import opened Finite
  import opened TestEnvironments

  /** How many ids are listed and how many of them one cycle visits. */
  datatype Limits = Limits(page: nat, visits: nat)

  const WORKER: Limits := Limits(100, 8)

  predicate Proper(l: Limits) { 0 < l.visits <= l.page }

  /** What one cycle meets: the ids active then, and which visits succeed. */
  datatype Cycle = Cycle(active: set<Id>, succeeds: Id -> bool)

  function After(active: set<Id>, cursor: Option<Id>): set<Id> {
    set id | id in active && (cursor.Some? ==> id > cursor.value)
  }

  function Take<T>(s: seq<T>, n: nat): seq<T> { if |s| <= n then s else s[..n] }

  function Page(l: Limits, c: Cycle, cursor: Option<Id>): seq<Id> {
    Take(FirstIds(After(c.active, cursor), l.page), l.visits)
  }

  /** Visits up to and including the first that fails. */
  function Visited(page: seq<Id>, succeeds: Id -> bool): (v: seq<Id>)
    ensures v <= page && (page != [] ==> v != [])
  {
    if page == [] then []
    else if succeeds(page[0]) then [page[0]] + Visited(page[1..], succeeds)
    else [page[0]]
  }

  function VisitsOf(l: Limits, c: Cycle, cursor: Option<Id>): seq<Id> { Visited(Page(l, c, cursor), c.succeeds) }

  function CursorAfter(l: Limits, c: Cycle, cursor: Option<Id>): Option<Id> {
    var v := VisitsOf(l, c, cursor);
    if v == [] then None else Some(v[|v| - 1])
  }

  class Rotation {
    var cursor: Option<Id>

    constructor ()
      ensures cursor == None
    {
      cursor := None;
    }

    /** One cycle: the cursor moves before each visit, so a failing visit is not met again first. */
    method RunTestCycles(l: Limits, c: Cycle) returns (reached: seq<Id>, ok: bool)
      requires Proper(l)
      modifies this
      ensures reached == VisitsOf(l, c, old(cursor)) && cursor == CursorAfter(l, c, old(cursor))
      ensures ok <==> forall id | id in reached :: c.succeeds(id)
    {
      var page := FirstIds(After(c.active, cursor), l.page);
      if page == [] {
        cursor := None;
        return [], true;
      }
      reached, ok := VisitPage(Take(page, l.visits), c.succeeds);
    }

    method VisitPage(page: seq<Id>, succeeds: Id -> bool) returns (reached: seq<Id>, ok: bool)
      requires page != []
      modifies this
      ensures reached == Visited(page, succeeds) && cursor == Some(reached[|reached| - 1])
      ensures ok <==> forall id | id in reached :: succeeds(id)
    {
      reached := [];
      var i := 0;
      while i < |page|
        invariant 0 <= i <= |page| && reached == page[..i]
        invariant forall k | 0 <= k < i :: succeeds(page[k])
        invariant i > 0 ==> cursor == Some(page[i - 1])
      {
        cursor := Some(page[i]);
        reached := reached + [page[i]];
        if !succeeds(page[i]) {
          VisitedUpTo(page, succeeds, i);
          return reached, false;
        }
        i := i + 1;
      }
      VisitedAll(page, succeeds);
      return reached, true;
    }
  }

  lemma {:induction false} VisitedUpTo(page: seq<Id>, succeeds: Id -> bool, i: nat)
    requires i < |page| && !succeeds(page[i]) && forall k | 0 <= k < i :: succeeds(page[k])
    ensures Visited(page, succeeds) == page[..i + 1]
  {
    if i > 0 {
      assert succeeds(page[0]);
      assert forall k | 0 <= k < i - 1 :: page[1..][k] == page[k + 1];
      VisitedUpTo(page[1..], succeeds, i - 1);
    }
  }

  lemma {:induction false} VisitedAll(page: seq<Id>, succeeds: Id -> bool)
    requires forall k | 0 <= k < |page| :: succeeds(page[k])
    ensures Visited(page, succeeds) == page
  {
    if page != [] {
      assert forall k | 0 <= k < |page| - 1 :: page[1..][k] == page[k + 1];
      VisitedAll(page[1..], succeeds);
    }
  }

  // ---- the first ids of a set ----

  function Elements(s: seq<Id>): set<Id> { set x | x in s }

  lemma {:induction false} FirstIdsLength(ids: set<Id>, limit: nat)
    ensures |FirstIds(ids, limit)| == if |ids| <= limit then |ids| else limit
    decreases limit
  {
    if limit > 0 && ids != {} { FirstIdsLength(ids - {Least(ids)}, limit - 1); }
  }

  lemma {:induction false} FirstIdsPrefix(ids: set<Id>, small: nat, large: nat)
    requires small <= large
    ensures Take(FirstIds(ids, large), small) == FirstIds(ids, small)
    decreases large
  {
    if small > 0 && ids != {} { FirstIdsPrefix(ids - {Least(ids)}, small - 1, large - 1); }
  }

  lemma {:induction false} FirstIdsSplit(ids: set<Id>, a: nat, b: nat)
    ensures FirstIds(ids, a + b) == FirstIds(ids, a) + FirstIds(ids - Elements(FirstIds(ids, a)), b)
    decreases a
  {
    var first := FirstIds(ids, a);
    if a > 0 && ids != {} {
      var least := Least(ids);
      FirstIdsSplit(ids - {least}, a - 1, b);
      assert first == [least] + FirstIds(ids - {least}, a - 1);
      assert ids - Elements(first) == (ids - {least}) - Elements(FirstIds(ids - {least}, a - 1));
    } else if a == 0 {
      assert ids - Elements(first) == ids;
    }
  }

  // ---- fairness while environments come and go ----

  /** How many more cycles may pass over `target`: ids of `universe` still met before it, and the wrap-around. */
  ghost function Distance(universe: set<Id>, cursor: Option<Id>, target: Id): nat {
    if cursor.None? || cursor.value < target then |Below(After(universe, cursor), target)|
    else |After(universe, cursor)| + 1 + |Below(universe, target)|
  }

  function Below(ids: set<Id>, target: Id): set<Id> { set x | x in ids && x < target }

  lemma DistanceAtMost(universe: set<Id>, cursor: Option<Id>, target: Id)
    requires target in universe
    ensures Distance(universe, cursor, target) <= |universe|
  {
    var below := Below(universe, target);
    if cursor.None? || cursor.value < target {
      SubsetSize(Below(After(universe, cursor), target), universe);
    } else {
      var above := After(universe, cursor);
      assert above !! below;
      assert |above + below| == |above| + |below|;
      SmallerSubset(above + below, universe, target);
    }
  }

  /** A cycle reaches the target or brings it nearer, whatever fails. */
  lemma {:induction false} CycleComesNearer(l: Limits, universe: set<Id>, c: Cycle, cursor: Option<Id>, target: Id)
    requires Proper(l) && target in c.active && c.active <= universe
    ensures target in VisitsOf(l, c, cursor) ||
            Distance(universe, CursorAfter(l, c, cursor), target) < Distance(universe, cursor, target)
  {
    var ids := After(c.active, cursor);
    var page, v := Page(l, c, cursor), VisitsOf(l, c, cursor);
    FirstIdsPrefix(ids, l.visits, l.page);
    FirstIdsAreFirst(ids, l.visits);
    if target !in v {
      if v == [] {
        EmptyPage(l, ids, page);
        assert After(universe, None) == universe;
      } else {
        var last := v[|v| - 1];
        assert last == page[|v| - 1];
        assert last in page && last in ids;
        if cursor.None? || cursor.value < target { BeforeTarget(l, ids, page, v, target); }
        PassingNearer(universe, cursor, last, target);
      }
    }
  }

  /** A cursor that moves on, and not past a target ahead of it, is nearer. */
  lemma {:induction false} PassingNearer(universe: set<Id>, cursor: Option<Id>, last: Id, target: Id)
    requires last in After(universe, cursor) && target in universe
    requires cursor.None? || cursor.value < target ==> last < target
    ensures Distance(universe, Some(last), target) < Distance(universe, cursor, target)
  {
    if cursor.None? || cursor.value < target {
      SmallerSubset(Below(After(universe, Some(last)), target), Below(After(universe, cursor), target), last);
    } else {
      SmallerSubset(After(universe, Some(last)), After(universe, cursor), last);
    }
  }

  lemma EmptyPage(l: Limits, ids: set<Id>, page: seq<Id>)
    requires Proper(l) && page == FirstIds(ids, l.visits) && page == []
    ensures ids == {}
  {}

  /** A page that has not reached a waiting target is still below it. */
  lemma BeforeTarget(l: Limits, ids: set<Id>, page: seq<Id>, v: seq<Id>, target: Id)
    requires page == FirstIds(ids, l.visits) && target in ids && v != [] && v <= page && target !in v
    ensures v[|v| - 1] < target
  {
    FirstIdsAreFirst(ids, l.visits);
    var last := |v| - 1;
    assert v[last] == page[last] && page[last] in page;
    if target in page {
      var i :| 0 <= i < |page| && page[i] == target;
      assert forall k | 0 <= k < |v| :: v[k] == page[k] && v[k] in v;
      assert last < i;
    }
  }

  function CursorFrom(l: Limits, cycles: seq<Cycle>, cursor: Option<Id>): Option<Id> {
    if cycles == [] then cursor
    else CursorAfter(l, cycles[|cycles| - 1], CursorFrom(l, cycles[..|cycles| - 1], cursor))
  }

  /** Some cycle reaches the id. */
  ghost predicate Reaches(l: Limits, cycles: seq<Cycle>, cursor: Option<Id>, target: Id) {
    exists k: nat :: ReachesAt(l, cycles, cursor, target, k)
  }

  predicate ReachesAt(l: Limits, cycles: seq<Cycle>, cursor: Option<Id>, target: Id, k: nat) {
    k < |cycles| && target in VisitsOf(l, cycles[k], CursorFrom(l, cycles[..k], cursor))
  }

  lemma {:induction false} ReachedOrNearer(l: Limits, universe: set<Id>, cycles: seq<Cycle>, cursor: Option<Id>,
                                           target: Id)
    requires Proper(l) && forall i | 0 <= i < |cycles| :: target in cycles[i].active && cycles[i].active <= universe
    ensures Reaches(l, cycles, cursor, target) ||
            Distance(universe, CursorFrom(l, cycles, cursor), target) + |cycles| <= Distance(universe, cursor, target)
  {
    if cycles != [] {
      var n := |cycles| - 1;
      var before := cycles[..n];
      ReachedOrNearer(l, universe, before, cursor, target);
      ReachedEarlier(l, cycles, cursor, target);
      CycleComesNearer(l, universe, cycles[n], CursorFrom(l, before, cursor), target);
    }
  }

  lemma {:induction false} ReachedEarlier(l: Limits, cycles: seq<Cycle>, cursor: Option<Id>, target: Id)
    requires cycles != []
    ensures var (before, last) := (cycles[..|cycles| - 1], cycles[|cycles| - 1]);
      Reaches(l, before, cursor, target) || target in VisitsOf(l, last, CursorFrom(l, before, cursor))
      ==> Reaches(l, cycles, cursor, target)
  {
    var n := |cycles| - 1;
    var before := cycles[..n];
    assert ReachesAt(l, cycles, cursor, target, n) <==> target in VisitsOf(l, cycles[n], CursorFrom(l, before, cursor));
    if Reaches(l, before, cursor, target) {
      var k: nat :| ReachesAt(l, before, cursor, target, k);
      assert before[..k] == cycles[..k];
      assert ReachesAt(l, cycles, cursor, target, k);
    }
  }

  /**
   * From any cursor, while other environments come and go among `n` in all and any visit may fail, an environment that
   * stays active is reached within `n + 1` cycles.
   */
  lemma ReachedWithinUniverse(l: Limits, universe: set<Id>, cycles: seq<Cycle>, cursor: Option<Id>, target: Id)
    requires Proper(l) && |cycles| > |universe|
      && forall i | 0 <= i < |cycles| :: target in cycles[i].active && cycles[i].active <= universe
    ensures Reaches(l, cycles, cursor, target)
  {
    assert target in cycles[0].active;
    DistanceAtMost(universe, cursor, target);
    ReachedOrNearer(l, universe, cycles, cursor, target);
  }

  // ---- a full rotation without failures ----

  function AllVisits(l: Limits, cycles: seq<Cycle>, cursor: Option<Id>): seq<Id> {
    if cycles == [] then [] else
      var before := cycles[..|cycles| - 1];
      AllVisits(l, before, cursor) + VisitsOf(l, cycles[|cycles| - 1], CursorFrom(l, before, cursor))
  }

  ghost predicate Undisturbed(c: Cycle, active: set<Id>) {
    c.active == active && forall id | id in active :: c.succeeds(id)
  }

  ghost predicate Steady(cycles: seq<Cycle>, active: set<Id>) {
    forall i | 0 <= i < |cycles| :: Undisturbed(cycles[i], active)
  }

  lemma SteadyVisits(l: Limits, c: Cycle, cursor: Option<Id>)
    requires Proper(l) && forall id | id in c.active :: c.succeeds(id)
    ensures VisitsOf(l, c, cursor) == FirstIds(After(c.active, cursor), l.visits)
  {
    FirstIdsPrefix(After(c.active, cursor), l.visits, l.page);
    VisitedAll(Page(l, c, cursor), c.succeeds);
  }

  /** What is left after the last id shown is what was not shown. */
  lemma LeftAfterLast(active: set<Id>, n: nat)
    requires 0 < n && active != {}
    ensures var shown := FirstIds(active, n);
      shown != [] && After(active, Some(shown[|shown| - 1])) == active - Elements(shown)
  {
    var shown := FirstIds(active, n);
    FirstIdsAreFirst(active, n);
    FirstIdsLength(active, n);
    var last := shown[|shown| - 1];
    assert last in shown;
    forall x | x in active ensures x > last <==> x !in shown {
      if x in shown { var i :| 0 <= i < |shown| && shown[i] == x; }
    }
  }

  function Last(s: seq<Id>): Option<Id> { if s == [] then None else Some(s[|s| - 1]) }

  /** One undisturbed cycle shows the next ids in order. */
  lemma {:induction false} SteadyStep(l: Limits, c: Cycle, active: set<Id>, m: nat)
    requires Proper(l) && Undisturbed(c, active) && m < |active|
    ensures var (cursor, more) := (Last(FirstIds(active, m)), FirstIds(active, m + l.visits));
      more == FirstIds(active, m) + VisitsOf(l, c, cursor) && CursorAfter(l, c, cursor) == Last(more)
  {
    var shown := FirstIds(active, m);
    var cursor := Last(shown);
    SteadyVisits(l, c, cursor);
    FirstIdsSplit(active, m, l.visits);
    FirstIdsLength(active, m);
    FirstIdsLength(active, m + l.visits);
    if m == 0 {
      assert After(active, None) == active - Elements(shown);
    } else {
      LeftAfterLast(active, m);
    }
  }

  lemma {:induction false} SteadyCycles(l: Limits, cycles: seq<Cycle>, active: set<Id>, m: nat)
    requires Proper(l) && Steady(cycles, active) && m == l.visits * |cycles| && m < |active| + l.visits
    ensures AllVisits(l, cycles, None) == FirstIds(active, m)
      && CursorFrom(l, cycles, None) == Last(FirstIds(active, m))
  {
    if cycles == [] {
      OneMoreTime(l.visits, 0);
      assert m == 0;
    } else {
      var n := |cycles| - 1;
      var before, c := cycles[..n], cycles[n];
      assert Undisturbed(c, active);
      OneMoreTime(l.visits, n);
      var earlier: nat := m - l.visits;
      SteadyCycles(l, before, active, earlier);
      SteadyStep(l, c, active, earlier);
    }
  }

  lemma OneMoreTime(v: nat, n: nat)
    ensures v * (n + 1) == v * n + v && v * 0 == 0
  {}

  lemma CeilingBounds(n: nat, v: nat)
    requires v > 0
    ensures n <= v * ((n + v - 1) / v) < n + v
  {}

  /**
   * From an empty cursor, `ceil(n / visits) + 1` undisturbed cycles reach each of `n` environments exactly once and
   * start over.
   */
  lemma FullRotation(l: Limits, cycles: seq<Cycle>, active: set<Id>)
    requires Proper(l) && Steady(cycles, active) && |cycles| == (|active| + l.visits - 1) / l.visits + 1
    ensures forall id | id in active :: multiset(AllVisits(l, cycles, None))[id] == 1
    ensures |AllVisits(l, cycles, None)| == |active| && CursorFrom(l, cycles, None) == None
  {
    var n := |cycles| - 1;
    CeilingBounds(|active|, l.visits);
    assert Undisturbed(cycles[n], active);
    SteadyCycles(l, cycles[..n], active, l.visits * n);
    AllShown(active, l.visits * n);
    EmptyCycle(l, cycles[n], active, l.visits * n);
    assert AllVisits(l, cycles, None) == AllVisits(l, cycles[..n], None);
  }

  /** With the worker's own limits: pages of eight. */
  lemma WorkerRotation(cycles: seq<Cycle>, active: set<Id>)
    requires Steady(cycles, active) && |cycles| == (|active| + 7) / 8 + 1
    ensures forall id | id in active :: multiset(AllVisits(WORKER, cycles, None))[id] == 1
    ensures |AllVisits(WORKER, cycles, None)| == |active| && CursorFrom(WORKER, cycles, None) == None
  {
    FullRotation(WORKER, cycles, active);
  }

  lemma AllShown(active: set<Id>, m: nat)
    requires m >= |active|
    ensures |FirstIds(active, m)| == |active| && forall id | id in active :: multiset(FirstIds(active, m))[id] == 1
  {}

  lemma EmptyCycle(l: Limits, c: Cycle, active: set<Id>, m: nat)
    requires Proper(l) && c.active == active && m >= |active|
    ensures VisitsOf(l, c, Last(FirstIds(active, m))) == []
  {
    var shown := FirstIds(active, m);
    FirstIdsLength(active, m);
    if active != {} {
      assert m > 0;
      LeftAfterLast(active, m);
      AllShown(active, m);
      assert active - Elements(shown) == {};
    }
    assert After(active, Last(shown)) == {};
  }
}
