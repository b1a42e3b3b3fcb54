// What the order of list queries means: rows are ordered by how many seconds and nanoseconds lie between a fixed
// instant and theirs, then by id.
module InstantOrder {
  import opened Cursor
  import opened CursorPages

  // ---- the number of an instant's second ----

  predicate Leap(year: int) { year % 4 == 0 && (year % 100 != 0 || year % 400 == 0) }

  /** Days from the first of January of year 0 to that of `year`. */
  function YearStart(year: int): int { 365 * year + (year - 1) / 4 - (year - 1) / 100 + (year - 1) / 400 }

  /** Days from the first of January to the first of `month`. */
  function MonthStart(year: int, month: nat): nat {
    if month <= 1 then 0 else MonthStart(year, month - 1) + DaysIn(year, month - 1)
  }

  function DayNumber(t: Instant): int { YearStart(t.year) + MonthStart(t.year, t.month) + t.day }

  function SecondNumber(t: Instant): int { ((DayNumber(t) * 24 + t.hour) * 60 + t.minute) * 60 + t.second }

  /** Outside of leap seconds, the number of nanoseconds. */
  function NanoNumber(t: Instant): int { SecondNumber(t) * 1_000_000_000 + t.nano }

  // ---- days are counted in calendar order ----

  lemma YearHasItsDays(year: int)
    ensures YearStart(year + 1) == YearStart(year) + if Leap(year) then 366 else 365
  {
    Quotient(year, 4);
    Quotient(year, 100);
    Quotient(year, 400);
    Multiples(year);
  }

  /** A quotient grows by one exactly at the multiples of the divisor. */
  lemma Quotient(n: int, d: int)
    requires d in {4, 100, 400}
    ensures n / d == (n - 1) / d + if n % d == 0 then 1 else 0
  {}

  lemma Multiples(n: int)
    ensures (n % 400 == 0 ==> n % 100 == 0) && (n % 100 == 0 ==> n % 4 == 0)
  {
    if n % 400 == 0 { HundredTimes(n, 4 * (n / 400)); }
    if n % 100 == 0 { FourTimes(n, 25 * (n / 100)); }
  }

  lemma HundredTimes(n: int, q: int)
    requires n == 100 * q
    ensures n % 100 == 0
  {}

  lemma FourTimes(n: int, q: int)
    requires n == 4 * q
    ensures n % 4 == 0
  {}

  lemma {:induction false} YearsInOrder(a: int, b: int)
    requires a < b
    ensures YearStart(a) + (if Leap(a) then 366 else 365) <= YearStart(b)
    decreases b - a
  {
    YearHasItsDays(a);
    if a + 1 < b { YearsInOrder(a + 1, b); }
  }

  lemma YearIsItsMonths(year: int)
    ensures MonthStart(year, 12) + DaysIn(year, 12) == if Leap(year) then 366 else 365
  {
    assert MonthStart(year, 2) == DaysIn(year, 1) == 31;
    assert MonthStart(year, 3) == 31 + DaysIn(year, 2);
    assert MonthStart(year, 5) == MonthStart(year, 3) + 31 + 30;
    assert MonthStart(year, 7) == MonthStart(year, 5) + 31 + 30;
    assert MonthStart(year, 9) == MonthStart(year, 7) + 31 + 31;
    assert MonthStart(year, 11) == MonthStart(year, 9) + 30 + 31;
    assert MonthStart(year, 12) == MonthStart(year, 11) + 30;
  }

  lemma {:induction false} MonthsInOrder(year: int, a: nat, b: nat)
    requires 1 <= a < b
    ensures MonthStart(year, a) + DaysIn(year, a) <= MonthStart(year, b)
    decreases b - a
  {
    if a + 1 < b { MonthsInOrder(year, a, b - 1); }
  }

  /** A real date falls within its year. */
  lemma DayWithinYear(t: Instant)
    requires Real(t)
    ensures YearStart(t.year) < DayNumber(t) <= YearStart(t.year) + if Leap(t.year) then 366 else 365
  {
    YearIsItsMonths(t.year);
    if t.month < 12 { MonthsInOrder(t.year, t.month, 12); }
  }

  /** An earlier calendar date is an earlier day. */
  lemma EarlierDate(a: Instant, b: Instant)
    requires Real(a) && Real(b)
    requires a.year < b.year || (a.year == b.year && (a.month < b.month || (a.month == b.month && a.day < b.day)))
    ensures DayNumber(a) < DayNumber(b)
  {
    DayWithinYear(a);
    DayWithinYear(b);
    if a.year < b.year {
      YearsInOrder(a.year, b.year);
    } else if a.month < b.month {
      MonthsInOrder(a.year, a.month, b.month);
    }
  }

  lemma SecondsInOrder(a: Instant, b: Instant)
    requires Real(a) && Real(b)
    ensures DayNumber(a) < DayNumber(b) ==> SecondNumber(a) < SecondNumber(b)
    ensures DayNumber(a) == DayNumber(b) ==>
      (SecondNumber(a) < SecondNumber(b) <==> LexLess([a.hour, a.minute, a.second], [b.hour, b.minute, b.second]))
      && (SecondNumber(a) == SecondNumber(b) <==> a.hour == b.hour && a.minute == b.minute && a.second == b.second)
  {
    LexOfThree(a.hour, a.minute, a.second, b.hour, b.minute, b.second);
  }

  lemma LexOfThree(a: int, b: int, c: int, d: int, e: int, f: int)
    ensures LexLess([a, b, c], [d, e, f]) <==> a < d || (a == d && (b < e || (b == e && c < f)))
  {
    LexFirst(a, [b, c], d, [e, f]);
    LexFirst(b, [c], e, [f]);
    LexFirst(c, [], f, []);
  }

  lemma LexFirst(x: int, xs: seq<int>, y: int, ys: seq<int>)
    requires |xs| == |ys|
    ensures LexLess([x] + xs, [y] + ys) <==> x < y || (x == y && LexLess(xs, ys))
  {
    assert ([x] + xs)[1..] == xs && ([y] + ys)[1..] == ys;
  }

  // ---- the order of rows ----

  function DateOf(t: Instant): seq<int> { [t.year, t.month, t.day] }
  function TimeOf(t: Instant): seq<int> { [t.hour, t.minute, t.second] }

  lemma {:induction false} LexConcat(a: seq<int>, b: seq<int>, c: seq<int>, d: seq<int>)
    requires |a| == |c| && |b| == |d|
    ensures LexLess(a + b, c + d) <==> LexLess(a, c) || (a == c && LexLess(b, d))
    decreases |a|
  {
    if a == [] {
      assert a + b == b && c + d == d;
    } else {
      LexConcat(a[1..], b, c[1..], d);
      assert a + b == [a[0]] + (a[1..] + b) && c + d == [c[0]] + (c[1..] + d);
      assert a == [a[0]] + a[1..] && c == [c[0]] + c[1..];
      LexFirst(a[0], a[1..] + b, c[0], c[1..] + d);
      LexFirst(a[0], a[1..], c[0], c[1..]);
    }
  }

  lemma DatesInOrder(a: Instant, b: Instant)
    requires Real(a) && Real(b)
    ensures LexLess(DateOf(a), DateOf(b)) <==> DayNumber(a) < DayNumber(b)
    ensures DateOf(a) == DateOf(b) <==> DayNumber(a) == DayNumber(b)
  {
    LexOfThree(a.year, a.month, a.day, b.year, b.month, b.day);
    if LexLess(DateOf(a), DateOf(b)) {
      EarlierDate(a, b);
    } else if DateOf(a) != DateOf(b) {
      assert a.year != b.year || a.month != b.month || a.day != b.day;
      EarlierDate(b, a);
    }
  }

  /** One row is older than another exactly if its second is earlier, or within it its nanosecond, or its id is less. */
  lemma OlderBySecond(a: Key, b: Key)
    requires Real(a.at) && Real(b.at)
    ensures Older(a, b) <==>
      var (s, t) := (SecondNumber(a.at), SecondNumber(b.at));
      s < t || (s == t && (a.at.nano < b.at.nano || (a.at.nano == b.at.nano && LexLess(a.id, b.id))))
  {
    var (c, d) := (a.at, b.at);
    FieldsInParts(a);
    FieldsInParts(b);
    LexConcat(DateOf(c), TimeOf(c) + ([c.nano] + a.id), DateOf(d), TimeOf(d) + ([d.nano] + b.id));
    LexConcat(TimeOf(c), [c.nano] + a.id, TimeOf(d), [d.nano] + b.id);
    LexFirst(c.nano, a.id, d.nano, b.id);
    DatesInOrder(c, d);
    SecondsInOrder(c, d);
    SecondsInOrder(d, c);
  }

  lemma FieldsInParts(k: Key)
    ensures Fields(k) == DateOf(k.at) + (TimeOf(k.at) + ([k.at.nano] + k.id))
  {}

  /** Outside of leap seconds: older means a smaller number of nanoseconds, and among equal ones a smaller id. */
  lemma OlderIsEarlier(a: Key, b: Key)
    requires Real(a.at) && Real(b.at) && a.at.nano < 1_000_000_000 && b.at.nano < 1_000_000_000
    ensures Older(a, b) <==>
      NanoNumber(a.at) < NanoNumber(b.at) || (NanoNumber(a.at) == NanoNumber(b.at) && LexLess(a.id, b.id))
  {
    OlderBySecond(a, b);
  }
}
