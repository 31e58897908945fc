/** Partition windows of market_pipeline_lib/contracts.py over the proleptic
    Gregorian calendar. A date is its ordinal; ordinal 1 is Monday 0001-01-01. */
module Partitions {

  datatype Granularity = DAY | WEEK | MONTH | YEAR

  function Rank(g: Granularity): nat {
    match g case DAY => 0 case WEEK => 1 case MONTH => 2 case YEAR => 3
  }

  // ---- the calendar ------------------------------------------------------------------

  predicate IsLeap(year: nat) {
    year % 4 == 0 && (year % 100 != 0 || year % 400 == 0)
  }

  /** Length of the k-th month since January of year 1. */
  function MonthLength(k: nat): (days: nat)
    ensures 28 <= days <= 31
  {
    var february := if IsLeap(k / 12 + 1) then 29 else 28;
    match k % 12
    case 1 => february
    case 3 | 5 | 8 | 10 => 30
    case _ => 31
  }

  /** First day of the k-th month since January of year 1. */
  function MonthStart(k: nat): int {
    if k == 0 then 1 else MonthStart(k - 1) + MonthLength(k - 1)
  }

  lemma {:induction false} MonthStartIncreasing(i: nat, j: nat)
    requires i < j
    ensures MonthStart(i) < MonthStart(j)
  {
    if i < j - 1 { MonthStartIncreasing(i, j - 1); }
  }

  function MonthFrom(d: int, k: nat): (m: nat)
    requires MonthStart(k) <= d
    ensures k <= m && MonthStart(m) <= d < MonthStart(m + 1)
    decreases d - MonthStart(k)
  {
    if d < MonthStart(k + 1) then k else MonthFrom(d, k + 1)
  }

  /** Month of a date, counted from January of year 1. */
  function MonthIndex(d: int): (m: nat)
    requires d >= 1
    ensures MonthStart(m) <= d < MonthStart(m + 1)
  {
    MonthFrom(d, 0)
  }

  lemma MonthIndexUnique(d: int, k: nat)
    requires d >= 1 && MonthStart(k) <= d < MonthStart(k + 1)
    ensures MonthIndex(d) == k
  {
    var m := MonthIndex(d);
    if m < k {
      if m + 1 < k { MonthStartIncreasing(m + 1, k); }
    } else if k < m {
      if k + 1 < m { MonthStartIncreasing(k + 1, m); }
    }
  }

  function YearOf(d: int): nat
    requires d >= 1
  {
    MonthIndex(d) / 12 + 1
  }

  lemma LengthInYear(y: nat, k: nat)
    requires k < 12
    ensures MonthLength(12 * y + k) == (match k case 1 => (if IsLeap(y + 1) then 29 else 28) case 3 | 5 | 8 | 10 => 30 case _ => 31)
  {
    assert (12 * y + k) / 12 == y && (12 * y + k) % 12 == k;
  }

  lemma SixMonths(m: nat)
    ensures MonthStart(m + 6) ==
            MonthStart(m) + MonthLength(m) + MonthLength(m + 1) + MonthLength(m + 2) + MonthLength(m + 3) + MonthLength(m + 4) + MonthLength(m + 5)
  {
    hide MonthLength;
    assert MonthStart(m + 2) == MonthStart(m) + MonthLength(m) + MonthLength(m + 1);
    assert MonthStart(m + 4) == MonthStart(m + 2) + MonthLength(m + 2) + MonthLength(m + 3);
  }

  lemma TwelveMonths(y: nat)
    ensures MonthStart(12 * y + 12) == MonthStart(12 * y) + (if IsLeap(y + 1) then 366 else 365)
  {
    hide MonthStart, MonthLength, IsLeap;
    LengthInYear(y, 0); LengthInYear(y, 1); LengthInYear(y, 2); LengthInYear(y, 3); LengthInYear(y, 4); LengthInYear(y,
      5);
    LengthInYear(y, 6); LengthInYear(y, 7); LengthInYear(y, 8); LengthInYear(y, 9); LengthInYear(y, 10); LengthInYear(y,
      11);
    SixMonths(12 * y);
    SixMonths(12 * y + 6);
  }

  lemma DivStep(y: nat, n: nat)
    requires y >= 1 && n >= 1
    ensures y / n == (y - 1) / n + (if y % n == 0 then 1 else 0)
  {
    var q, r := y / n, y % n;
    assert y == q * n + r;
    if r == 0 { DivIs(y - 1, n, q - 1, n - 1); } else { DivIs(y - 1, n, q, r - 1); }
  }

  lemma DivIs(y: int, n: nat, q: int, r: nat)
    requires y == q * n + r && r < n
    ensures y / n == q
  {
    var k := y / n - q;
    assert k >= 1 ==> k * n >= n;
    assert k <= -1 ==> k * n <= 0 - n;
    assert k * n == r - y % n;
  }

  /** The Gregorian rule: leap days up to a year. */
  lemma {:induction false} YearBegins(y: nat)
    ensures MonthStart(12 * y) == 1 + 365 * y + y / 4 - y / 100 + y / 400
  {
    hide MonthStart, IsLeap;
    if y == 0 {
      FirstDay();
    } else {
      YearBegins(y - 1);
      TwelveMonths(y - 1);
      OneYearMore(y);
    }
  }

  lemma OneYearMore(y: nat)
    requires y >= 1
    ensures 12 * (y - 1) + 12 == 12 * y
    ensures y / 4 - y / 100 + y / 400 == (y - 1) / 4 - (y - 1) / 100 + (y - 1) / 400 + (if IsLeap(y) then 1 else 0)
  {
    LeapCycle(y);
    DivStep(y, 4);
    DivStep(y, 100);
    DivStep(y, 400);
  }

  lemma LeapCycle(y: nat)
    ensures y % 400 == 0 ==> y % 100 == 0
    ensures y % 100 == 0 ==> y % 4 == 0
  {
    if y % 400 == 0 { DivIs(y, 100, 4 * (y / 400), 0); }
    if y % 100 == 0 { DivIs(y, 4, 25 * (y / 100), 0); }
  }

  lemma FirstDay()
    ensures MonthStart(0) == 1
  {
  }

  lemma YearOfDay(d: int, year: nat)
    requires year >= 1 && MonthStart(12 * (year - 1)) <= d < MonthStart(12 * year) && d >= 1
    ensures YearOf(d) == year
  {
    hide MonthStart;
    var m := MonthIndex(d);
    if m < 12 * (year - 1) && m + 1 < 12 * (year - 1) { MonthStartIncreasing(m + 1, 12 * (year - 1)); }
    if m >= 12 * year && m > 12 * year { MonthStartIncreasing(12 * year, m); }
  }

  /** Monday is 0. */
  function Weekday(d: int): nat {
    (d + 6) % 7
  }

  // ---- partition windows --------------------------------------------------------------

  datatype Window = Window(start: int, end: int)

  function PartitionBounds(d: int, g: Granularity): (w: Window)
    requires d >= 1
    ensures 1 <= w.start <= d < w.end
  {
    match g
    case DAY => Window(d, d + 1)
    case WEEK => Window(d - Weekday(d), d - Weekday(d) + 7)
    case MONTH =>
      var m := MonthIndex(d);
      YearHoldsItsMonths(m);
      Window(MonthStart(m), MonthStart(m + 1))
    case YEAR =>
      var y := MonthIndex(d) / 12;
      YearHoldsItsMonths(MonthIndex(d));
      Window(MonthStart(12 * y), MonthStart(12 * y + 12))
  }

  lemma WeekOf(d: int)
    requires d >= 1
    ensures PartitionBounds(d, WEEK).start == d - (d + 6) % 7
  {
  }

  lemma YearHoldsItsMonths(m: nat)
    ensures 1 <= MonthStart(12 * (m / 12)) <= MonthStart(m)
    ensures MonthStart(m + 1) <= MonthStart(12 * (m / 12) + 12)
  {
    MonthsInOrder(12 * (m / 12), m);
  }

  lemma MonthsInOrder(first: nat, m: nat)
    requires first <= m < first + 12
    ensures 1 <= MonthStart(first) <= MonthStart(m)
    ensures MonthStart(m + 1) <= MonthStart(first + 12)
  {
    hide MonthStart;
    FirstDay();
    MonthsDoNotDecrease(first, m);
    MonthsDoNotDecrease(m + 1, first + 12);
    MonthsDoNotDecrease(0, first);
  }

  lemma MonthsDoNotDecrease(i: nat, j: nat)
    requires i <= j
    ensures MonthStart(i) <= MonthStart(j)
  {
    hide MonthStart;
    if i < j { MonthStartIncreasing(i, j); }
  }

  /** The window some date has at this granularity. */
  ghost predicate IsWindow(g: Granularity, w: Window) {
    exists d :: d >= 1 && PartitionBounds(d, g) == w
  }

  predicate Overlaps(a: Window, b: Window) {
    a.start < b.end && b.start < a.end
  }

  predicate Within(a: Window, b: Window) {
    b.start <= a.start && a.end <= b.end
  }

  /** A week that spills into the next month. */
  predicate CrossesMonth(w: Window)
    requires 1 <= w.start < w.end
  {
    MonthIndex(w.start) != MonthIndex(w.end - 1)
  }

  lemma WindowIsProper(g: Granularity, w: Window)
    requires IsWindow(g, w)
    ensures 1 <= w.start < w.end
  {
  }

  /** Any date of a window has that window. */
  lemma WindowOfMember(g: Granularity, w: Window, x: int)
    requires IsWindow(g, w) && w.start <= x < w.end
    ensures x >= 1 && PartitionBounds(x, g) == w
  {
    hide PartitionBounds;
    var d :| d >= 1 && PartitionBounds(d, g) == w;
    SamePartition(g, d, x);
  }

  lemma SamePartition(g: Granularity, d: int, x: int)
    requires d >= 1 && PartitionBounds(d, g).start <= x < PartitionBounds(d, g).end
    ensures x >= 1 && PartitionBounds(x, g) == PartitionBounds(d, g)
  {
    hide MonthStart;
    match g
    case DAY =>
    case WEEK => SameWeek(d, x);
    case MONTH => MonthIndexUnique(x, MonthIndex(d));
    case YEAR => SameYear(d, x);
  }

  lemma SameWeek(d: int, x: int)
    requires d - Weekday(d) <= x < d - Weekday(d) + 7
    ensures x - Weekday(x) == d - Weekday(d)
  {
    var q := (d + 6) / 7;
    assert x + 6 == 7 * q + (x + 6 - 7 * q);
  }

  lemma SameYear(d: int, x: int)
    requires d >= 1 && x >= 1
    requires MonthStart(12 * (MonthIndex(d) / 12)) <= x < MonthStart(12 * (MonthIndex(d) / 12) + 12)
    ensures MonthIndex(x) / 12 == MonthIndex(d) / 12
  {
    hide MonthStart;
    var y, m := MonthIndex(d) / 12, MonthIndex(x);
    if m < 12 * y {
      if m + 1 < 12 * y { MonthStartIncreasing(m + 1, 12 * y); }
    }
    if m >= 12 * y + 12 {
      if m > 12 * y + 12 { MonthStartIncreasing(12 * y + 12, m); }
    }
    assert 12 * y <= m < 12 * y + 12;
  }

  /** Two windows of one granularity are equal or disjoint. */
  lemma SameGranularityLaminar(g: Granularity, a: Window, b: Window)
    requires IsWindow(g, a) && IsWindow(g, b) && Overlaps(a, b)
    ensures a == b
  {
    var x := if a.start < b.start then b.start else a.start;
    WindowOfMember(g, a, x);
    WindowOfMember(g, b, x);
  }

  /** A day, or a run of days inside one month, lies inside any coarser month or
      year it touches. */
  lemma InOneMonthNests(a: Window, g: Granularity, b: Window)
    requires 1 <= a.start < a.end && !CrossesMonth(a)
    requires (g == MONTH || g == YEAR) && IsWindow(g, b) && Overlaps(a, b)
    ensures Within(a, b)
  {
    hide MonthStart;
    var x := if a.start < b.start then b.start else a.start;
    WindowOfMember(g, b, x);
    var m := MonthIndex(a.start);
    MonthIndexUnique(x, m);
    YearHoldsItsMonths(m);
  }

  lemma MonthWindowIsOneMonth(w: Window)
    requires IsWindow(MONTH, w)
    ensures 1 <= w.start < w.end && !CrossesMonth(w)
  {
    hide MonthStart;
    WindowOfMember(MONTH, w, w.start);
    WindowOfMember(MONTH, w, w.end - 1);
    var d :| d >= 1 && PartitionBounds(d, MONTH) == w;
    MonthIndexUnique(w.start, MonthIndex(d));
    MonthIndexUnique(w.end - 1, MonthIndex(d));
  }

  /** DAY, non-crossing WEEK, MONTH and YEAR windows form a laminar family: a finer
      window touching a coarser one lies inside it. */
  lemma FinerWindowNests(fine: Granularity, a: Window, coarse: Granularity, b: Window)
    requires IsWindow(fine, a) && IsWindow(coarse, b)
    requires Rank(fine) < Rank(coarse) && Overlaps(a, b)
    requires fine == WEEK ==> 1 <= a.start < a.end && !CrossesMonth(a)
    ensures Within(a, b)
  {
    WindowIsProper(fine, a);
    WindowOfMember(fine, a, a.start);
    match fine
    case DAY =>
    case WEEK => InOneMonthNests(a, coarse, b);
    case MONTH => MonthWindowIsOneMonth(a); InOneMonthNests(a, coarse, b);
  }

  /** The month condition on weeks is exactly what nesting in months needs. */
  lemma WeekNestsExactlyInOneMonth(a: Window)
    requires IsWindow(WEEK, a) && 1 <= a.start < a.end
    ensures !CrossesMonth(a) <==> forall b :: IsWindow(MONTH, b) && Overlaps(a, b) ==> Within(a, b)
  {
    hide MonthStart;
    if !CrossesMonth(a) {
      forall b | IsWindow(MONTH, b) && Overlaps(a, b) ensures Within(a, b) {
        InOneMonthNests(a, MONTH, b);
      }
    } else {
      var b := PartitionBounds(a.start, MONTH);
      assert IsWindow(MONTH, b) && Overlaps(a, b);
      if Within(a, b) {
        MonthIndexUnique(a.end - 1, MonthIndex(a.start));
      }
    }
  }
}
