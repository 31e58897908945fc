/** Missing-bar detection of market_pipeline_lib/quality.py: session calendar
    expectation, gap grouping that never joins two sessions, and its vectorised count. */
module Gaps {
  import opened Common

  /** One regular session of the exchange calendar. */
  datatype Session = Session(open: int, close: int, date: int)

  datatype MissingInterval = MissingInterval(start: int, end: int, lastStart: int, barCount: nat, date: int,
                                             previousObserved: Option<int>, nextObserved: Option<int>)

  ghost predicate Increasing(s: seq<int>) {
    forall i, j :: 0 <= i < j < |s| ==> s[i] < s[j]
  }

  /** The calendar: sessions in time order, each inside its own exchange date. */
  ghost predicate ValidCalendar(sessions: seq<Session>, dateOf: int -> int) {
    && (forall i :: 0 <= i < |sessions| ==> sessions[i].open < sessions[i].close)
    && (forall i, j :: 0 <= i < j < |sessions| ==> sessions[i].close <= sessions[j].open && sessions[i].date < sessions[j].date)
    && (forall i, t :: 0 <= i < |sessions| && sessions[i].open <= t < sessions[i].close ==> dateOf(t) == sessions[i].date)
  }

  /** Bar starts: increasing, one bar apart inside a date, dates in blocks. */
  ghost predicate SessionGrid(bars: seq<int>, freq: int, dateOf: int -> int) {
    && Increasing(bars)
    && (forall i :: 0 < i < |bars| && dateOf(bars[i - 1]) == dateOf(bars[i]) ==> bars[i] == bars[i - 1] + freq)
    && (forall i, j :: 0 <= i < j < |bars| ==> dateOf(bars[i]) <= dateOf(bars[j]))
  }

  /** Bar starts of one session, the closing instant excluded. */
  function BarStarts(t: int, close: int, freq: int): seq<int>
    requires freq > 0
    decreases close - t
  {
    if t < close then [t] + BarStarts(t + freq, close, freq) else []
  }

  function AllStarts(sessions: seq<Session>, freq: int): seq<int>
    requires freq > 0
  {
    if sessions == [] then [] else BarStarts(sessions[0].open, sessions[0].close, freq) + AllStarts(sessions[1..], freq)
  }

  function Between(s: seq<int>, first: int, last: int): (r: seq<int>)
    ensures forall t :: t in r <==> t in s && first <= t <= last
  {
    if s == [] then []
    else if first <= s[0] <= last then [s[0]] + Between(s[1..], first, last)
    else Between(s[1..], first, last)
  }

  /** Regular-session bar starts between the observed edges, inclusive. */
  function ExpectedSessionBarStarts(sessions: seq<Session>, first: int, last: int, freq: int): seq<int>
    requires freq > 0
  {
    Between(AllStarts(sessions, freq), first, last)
  }

  lemma {:induction false} BarStartsGrid(t: int, close: int, freq: int, dateOf: int -> int, date: int)
    requires freq > 0 && forall u :: t <= u < close ==> dateOf(u) == date
    ensures SessionGrid(BarStarts(t, close, freq), freq, dateOf)
    ensures forall u :: u in BarStarts(t, close, freq) ==> t <= u < close
    ensures t < close ==> BarStarts(t, close, freq)[0] == t
    decreases close - t
  {
    if t + freq < close {
      BarStartsGrid(t + freq, close, freq, dateOf, date);
      JoinAtHead(t, BarStarts(t + freq, close, freq), freq, dateOf);
    }
  }

  lemma JoinGrids(a: seq<int>, b: seq<int>, freq: int, dateOf: int -> int)
    requires SessionGrid(a, freq, dateOf) && SessionGrid(b, freq, dateOf)
    requires forall x, y :: x in a && y in b ==> x < y && dateOf(x) < dateOf(y)
    ensures SessionGrid(a + b, freq, dateOf)
  {
    var s := a + b;
    assert a != [] && b != [] ==> a[|a| - 1] in a && b[0] in b;
    forall i, j | 0 <= i < j < |s| ensures s[i] < s[j] && dateOf(s[i]) <= dateOf(s[j]) {
      if i < |a| <= j { assert s[i] in a && s[j] in b; }
    }
    forall i | 0 < i < |s| && dateOf(s[i - 1]) == dateOf(s[i]) ensures s[i] == s[i - 1] + freq {
      assert i != |a|;
    }
  }

  lemma {:induction false} StartsLieInSessions(sessions: seq<Session>, freq: int)
    requires freq > 0
    ensures forall u :: u in AllStarts(sessions, freq) ==> exists k :: 0 <= k < |sessions| && InSession(sessions[k], u)
  {
    if sessions != [] {
      StartsLieInSessions(sessions[1..], freq);
      BarStartsGrid(sessions[0].open, sessions[0].close, freq, _ => 0, 0);
      forall u | u in AllStarts(sessions, freq) ensures exists k :: 0 <= k < |sessions| && InSession(sessions[k], u) {
        if u in AllStarts(sessions[1..], freq) {
          var k :| 0 <= k < |sessions| - 1 && InSession(sessions[1..][k], u);
          assert InSession(sessions[k + 1], u);
        } else {
          assert InSession(sessions[0], u);
        }
      }
    }
  }

  lemma ModStep(x: int, f: int)
    requires f > 0
    ensures (x - f) % f == x % f
  {
    var q, r := x / f, x % f;
    assert x - f == f * (q - 1) + r;
    EuclidUnique(x - f, f, q - 1, r);
  }

  lemma ProductGap(f: int, p: int, q: int)
    requires f > 0 && p > q
    ensures f * p >= f * q + f
  {
    NonNegative(f, p - q - 1);
    assert f * (p - q - 1) == f * p - f * q - f;
  }

  lemma NonNegative(a: int, b: int)
    requires a >= 0 && b >= 0
    ensures a * b >= 0
  {
  }

  lemma EuclidUnique(x: int, f: int, q: int, r: int)
    requires f > 0 && x == f * q + r && 0 <= r < f
    ensures x % f == r
  {
    var p, s := x / f, x % f;
    assert x == f * p + s;
    if p > q {
      ProductGap(f, p, q);
    } else if p < q {
      ProductGap(f, q, p);
    }
  }

  /** The bar starts of a session are the instants a whole number of bars after
      its open and before its close. */
  lemma {:induction false} BarStartsAreTheGrid(t: int, close: int, freq: int, u: int)
    requires freq > 0
    ensures u in BarStarts(t, close, freq) <==> t <= u < close && (u - t) % freq == 0
    decreases close - t
  {
    if t < close {
      BarStartsAreTheGrid(t + freq, close, freq, u);
      ModStep(u - t, freq);
      if t < u < t + freq { EuclidUnique(u - t, freq, 0, u - t); }
    }
  }

  predicate InSession(s: Session, t: int) {
    s.open <= t < s.close
  }

  lemma {:induction false} AllStartsGrid(sessions: seq<Session>, freq: int, dateOf: int -> int)
    requires freq > 0 && ValidCalendar(sessions, dateOf)
    ensures SessionGrid(AllStarts(sessions, freq), freq, dateOf)
  {
    if sessions != [] {
      var first, rest := sessions[0], sessions[1..];
      AllStartsGrid(rest, freq, dateOf);
      BarStartsGrid(first.open, first.close, freq, dateOf, first.date);
      StartsLieInSessions(rest, freq);
      hide SessionGrid;
      var a, b := BarStarts(first.open, first.close, freq), AllStarts(rest, freq);
      forall x, y | x in a && y in b ensures x < y && dateOf(x) < dateOf(y) {
        var k :| 0 <= k < |rest| && InSession(rest[k], y);
        assert dateOf(y) == sessions[k + 1].date && dateOf(x) == sessions[0].date;
      }
      JoinGrids(a, b, freq, dateOf);
    }
  }

  /** Cutting a grid to the observed edges leaves a grid. */
  lemma {:induction false} BetweenGrid(s: seq<int>, first: int, last: int, freq: int, dateOf: int -> int)
    requires SessionGrid(s, freq, dateOf)
    ensures SessionGrid(Between(s, first, last), freq, dateOf)
    ensures Between(s, first, last) != [] && s != [] && first <= s[0] <= last ==> Between(s, first, last)[0] == s[0]
  {
    if s != [] {
      BetweenGrid(s[1..], first, last, freq, dateOf);
      var rest := Between(s[1..], first, last);
      assert forall k :: 0 <= k < |rest| ==> rest[k] in rest && rest[k] in s[1..];
      if first <= s[0] <= last && rest != [] {
        assert s[1] <= rest[0];
        assert rest[0] == s[1];
        JoinAtHead(s[0], rest, freq, dateOf);
      }
    }
  }

  lemma JoinAtHead(x: int, rest: seq<int>, freq: int, dateOf: int -> int)
    requires rest != [] && SessionGrid(rest, freq, dateOf) && x < rest[0]
    requires dateOf(x) <= dateOf(rest[0]) && (dateOf(x) == dateOf(rest[0]) ==> rest[0] == x + freq)
    ensures SessionGrid([x] + rest, freq, dateOf)
  {
    var s := [x] + rest;
    forall i, j | 0 <= i < j < |s| ensures s[i] < s[j] && dateOf(s[i]) <= dateOf(s[j]) {
      assert s[j] == rest[j - 1];
      assert j == 1 || dateOf(rest[0]) <= dateOf(rest[j - 1]);
    }
    forall i | 0 < i < |s| && dateOf(s[i - 1]) == dateOf(s[i]) ensures s[i] == s[i - 1] + freq {
      if i > 1 { assert s[i - 1] == rest[i - 2] && s[i] == rest[i - 1]; }
    }
  }

  // ---- grouping ----------------------------------------------------------------

  /** A new gap opens at p: another session, or not exactly one bar later. */
  predicate Breaks(missing: seq<int>, freq: int, dateOf: int -> int, p: int)
    requires 0 < p < |missing|
  {
    !(dateOf(missing[p]) == dateOf(missing[p - 1]) && missing[p] - missing[p - 1] == freq)
  }

  /** The index runs cut `missing[..n]` at exactly the breaks. */
  ghost predicate Runs(missing: seq<int>, freq: int, dateOf: int -> int, runs: seq<(int, int)>, n: int) {
    && 0 < n <= |missing| && runs != []
    && runs[0].0 == 0 && runs[|runs| - 1].1 == n - 1
    && (forall k :: 0 <= k < |runs| ==> 0 <= runs[k].0 <= runs[k].1 < n)
    && (forall k :: 0 < k < |runs| ==> runs[k].0 == runs[k - 1].1 + 1 && Breaks(missing, freq, dateOf, runs[k].0))
    && (forall k, p :: 0 <= k < |runs| && runs[k].0 < p <= runs[k].1 ==> !Breaks(missing, freq, dateOf, p))
  }

  method GapBoundaries(missing: seq<int>, freq: int, dateOf: int -> int) returns (runs: seq<(int, int)>)
    requires missing != []
    ensures Runs(missing, freq, dateOf, runs, |missing|)
  {
    runs := [];
    var start := 0;
    var position := 1;
    while position < |missing|
      invariant 1 <= position <= |missing|
      invariant 0 <= start < position
      invariant Runs(missing, freq, dateOf, runs + [(start, position - 1)], position)
    {
      var sameSession := dateOf(missing[position]) == dateOf(missing[position - 1]);
      var consecutive := missing[position] - missing[position - 1] == freq;
      if !(sameSession && consecutive) {
        CutRun(missing, freq, dateOf, runs, start, position);
        runs := runs + [(start, position - 1)];
        start := position;
      } else {
        ExtendRun(missing, freq, dateOf, runs, start, position);
      }
      position := position + 1;
    }
    runs := runs + [(start, |missing| - 1)];
  }

  lemma CutRun(missing: seq<int>, freq: int, dateOf: int -> int, runs: seq<(int, int)>, start: int, p: int)
    requires 0 < p < |missing| && Runs(missing, freq, dateOf, runs + [(start, p - 1)], p)
    requires Breaks(missing, freq, dateOf, p)
    ensures Runs(missing, freq, dateOf, runs + [(start, p - 1)] + [(p, p)], p + 1)
  {
    var a, b := runs + [(start, p - 1)], runs + [(start, p - 1)] + [(p, p)];
    assert forall k :: 0 <= k < |a| ==> b[k] == a[k];
  }

  lemma ExtendRun(missing: seq<int>, freq: int, dateOf: int -> int, runs: seq<(int, int)>, start: int, p: int)
    requires 0 < p < |missing| && Runs(missing, freq, dateOf, runs + [(start, p - 1)], p)
    requires !Breaks(missing, freq, dateOf, p)
    ensures Runs(missing, freq, dateOf, runs + [(start, p)], p + 1)
  {
    var a, b := runs + [(start, p - 1)], runs + [(start, p)];
    assert a[|runs|] == (start, p - 1);
    forall k | 0 <= k < |b| ensures b[k].0 == a[k].0 && (k < |runs| ==> b[k] == a[k]) {
    }
    forall k, q | 0 <= k < |b| && b[k].0 < q <= b[k].1 ensures !Breaks(missing, freq, dateOf, q) {
      if q != p { assert a[k].0 < q <= a[k].1; }
    }
  }

  /** The vectorised comparison of each missing bar with its predecessor. */
  function BreakCount(missing: seq<int>, freq: int, dateOf: int -> int, n: int): nat
    requires n <= |missing|
  {
    if n <= 1 then 0
    else BreakCount(missing, freq, dateOf, n - 1) + (if Breaks(missing, freq, dateOf, n - 1) then 1 else 0)
  }

  function CountMissingBarIntervals(missing: seq<int>, freq: int, dateOf: int -> int): nat {
    if missing == [] then 0 else 1 + BreakCount(missing, freq, dateOf, |missing|)
  }

  lemma {:induction false} QuietStretch(missing: seq<int>, freq: int, dateOf: int -> int, lo: int, hi: int)
    requires 0 < lo <= hi <= |missing|
    requires forall p :: lo <= p < hi ==> !Breaks(missing, freq, dateOf, p)
    ensures BreakCount(missing, freq, dateOf, hi) == BreakCount(missing, freq, dateOf, lo)
    decreases hi
  {
    if lo < hi { QuietStretch(missing, freq, dateOf, lo, hi - 1); }
  }

  /** The last run starts at a break and has none inside; the runs before it end there. */
  lemma LastRun(missing: seq<int>, freq: int, dateOf: int -> int, runs: seq<(int, int)>, n: int)
    requires Runs(missing, freq, dateOf, runs, n)
    ensures var last := runs[|runs| - 1];
            && 0 <= last.0 <= last.1 == n - 1 && n <= |missing|
            && (forall p :: last.0 < p < n ==> !Breaks(missing, freq, dateOf, p))
            && (if |runs| == 1 then last.0 == 0
                else last.0 > 0 && Breaks(missing, freq, dateOf, last.0) && Runs(missing, freq, dateOf, runs[..|runs| - 1], last.0))
  {
    hide Breaks;
    if |runs| > 1 {
      var rest, last := runs[..|runs| - 1], runs[|runs| - 1];
      assert forall k :: 0 <= k < |rest| ==> rest[k] == runs[k];
      forall k | 0 <= k < |rest| ensures rest[k].1 < last.0 {
        RunsAscend(missing, freq, dateOf, runs, n, k, |runs| - 1);
      }
    }
  }

  /** Any cut at exactly the breaks has as many runs as the vectorised count. */
  lemma {:induction false} RunsMatchCount(missing: seq<int>, freq: int, dateOf: int -> int, runs: seq<(int, int)>,
                                          n: int)
    requires Runs(missing, freq, dateOf, runs, n)
    ensures |runs| == 1 + BreakCount(missing, freq, dateOf, n)
    ensures BarTotal(runs) == n
    decreases |runs|
  {
    LastRun(missing, freq, dateOf, runs, n);
    assert runs != [];
    hide Runs, Breaks;
    var last := runs[|runs| - 1];
    QuietStretch(missing, freq, dateOf, last.0 + 1, n);
    if |runs| > 1 {
      RunsMatchCount(missing, freq, dateOf, runs[..|runs| - 1], last.0);
    } else {
      assert runs[..0] == [];
    }
  }

  lemma {:induction false} RunsAscend(missing: seq<int>, freq: int, dateOf: int -> int, runs: seq<(int, int)>, n: int,
                                      i: int, j: int)
    requires Runs(missing, freq, dateOf, runs, n) && 0 <= i < j < |runs|
    ensures runs[i].1 < runs[j].0
    decreases j
  {
    if i < j - 1 { RunsAscend(missing, freq, dateOf, runs, n, i, j - 1); }
  }

  function BarTotal(runs: seq<(int, int)>): int {
    if runs == [] then 0 else BarTotal(runs[..|runs| - 1]) + (runs[|runs| - 1].1 - runs[|runs| - 1].0 + 1)
  }

  // ---- exactness -----------------------------------------------------------------

  predicate InRun(missing: seq<int>, run: (int, int), t: int)
    requires 0 <= run.0 <= run.1 < |missing|
  {
    missing[run.0] <= t <= missing[run.1]
  }

  /** What `expected.difference(observed)` is: the expected bars not observed. */
  ghost predicate IsDifference(expected: seq<int>, observed: seq<int>, missing: seq<int>) {
    Increasing(missing) && forall t :: t in missing <==> t in expected && t !in observed
  }

  /** Nothing is expected strictly between a bar and the next one of its date. */
  lemma NextOnGrid(expected: seq<int>, freq: int, dateOf: int -> int, x: int, t: int)
    requires SessionGrid(expected, freq, dateOf)
    requires x in expected && t in expected && x < t && dateOf(x) == dateOf(t)
    ensures x + freq in expected && x + freq <= t
  {
    var i :| 0 <= i < |expected| && expected[i] == x;
    var j :| 0 <= j < |expected| && expected[j] == t;
    assert i < j;
    assert dateOf(expected[i]) <= dateOf(expected[i + 1]) && (i + 1 == j || dateOf(expected[i + 1]) <= dateOf(expected[j]));
    assert expected[i + 1] == x + freq && (i + 1 == j || expected[i + 1] < expected[j]);
  }

  lemma DatesAscend(bars: seq<int>, freq: int, dateOf: int -> int, x: int, y: int)
    requires SessionGrid(bars, freq, dateOf) && x in bars && y in bars && x <= y
    ensures dateOf(x) <= dateOf(y)
  {
    var i :| 0 <= i < |bars| && bars[i] == x;
    var j :| 0 <= j < |bars| && bars[j] == y;
    assert i <= j;
  }

  /** A run holds every expected bar between its ends. */
  lemma {:induction false} RunHoldsItsSpan(expected: seq<int>, observed: seq<int>, missing: seq<int>, freq: int,
                                           dateOf: int -> int,
                                           lo: int, hi: int, t: int)
    requires SessionGrid(expected, freq, dateOf) && IsDifference(expected, observed, missing)
    requires 0 <= lo <= hi < |missing| && forall p :: lo < p <= hi ==> !Breaks(missing, freq, dateOf, p)
    requires t in expected && missing[lo] <= t <= missing[hi]
    ensures t in missing
    decreases hi
  {
    if t == missing[lo] {
    } else if t <= missing[hi - 1] {
      RunHoldsItsSpan(expected, observed, missing, freq, dateOf, lo, hi - 1, t);
    } else {
      assert !Breaks(missing, freq, dateOf, hi);
      var x, y := missing[hi - 1], missing[hi];
      assert x in missing && y in missing;
      DatesAscend(expected, freq, dateOf, x, t);
      DatesAscend(expected, freq, dateOf, t, y);
      NextOnGrid(expected, freq, dateOf, x, t);
    }
  }

  lemma {:induction false} RunOfIndex(missing: seq<int>, freq: int, dateOf: int -> int, runs: seq<(int, int)>, n: int,
                                      p: int, upto: nat)
    returns (k: nat)
    requires Runs(missing, freq, dateOf, runs, n) && 0 <= p < n
    requires upto < |runs| && p <= runs[upto].1
    ensures k < |runs| && runs[k].0 <= p <= runs[k].1
  {
    if runs[upto].0 <= p {
      k := upto;
    } else {
      k := RunOfIndex(missing, freq, dateOf, runs, n, p, upto - 1);
    }
  }

  /** Each expected bar is observed or lies in exactly one run. */
  lemma EachExpectedBarOnce(expected: seq<int>, observed: seq<int>, missing: seq<int>, freq: int, dateOf: int -> int,
                            runs: seq<(int, int)>, t: int)
    requires SessionGrid(expected, freq, dateOf) && IsDifference(expected, observed, missing)
    requires Runs(missing, freq, dateOf, runs, |missing|)
    requires t in expected
    ensures t in observed <==> !exists k :: 0 <= k < |runs| && InRun(missing, runs[k], t)
    ensures forall i, j :: 0 <= i < j < |runs| ==> !(InRun(missing, runs[i], t) && InRun(missing, runs[j], t))
  {
    forall i, j | 0 <= i < j < |runs| ensures !(InRun(missing, runs[i], t) && InRun(missing, runs[j], t)) {
      RunsAscend(missing, freq, dateOf, runs, |missing|, i, j);
    }
    if t in observed {
      forall k | 0 <= k < |runs| ensures !InRun(missing, runs[k], t) {
        if InRun(missing, runs[k], t) {
          RunHoldsItsSpan(expected, observed, missing, freq, dateOf, runs[k].0, runs[k].1, t);
        }
      }
    } else {
      assert t in missing;
      var p :| 0 <= p < |missing| && missing[p] == t;
      var k := RunOfIndex(missing, freq, dateOf, runs, |missing|, p, |runs| - 1);
      assert InRun(missing, runs[k], t);
    }
  }

  /** A run cannot be widened inside its session: the bar before it and the bar
      after it are not missing bars of the same date. */
  lemma RunsAreMaximal(expected: seq<int>, observed: seq<int>, missing: seq<int>, freq: int, dateOf: int -> int,
                       runs: seq<(int, int)>, k: nat)
    requires freq > 0 && SessionGrid(expected, freq, dateOf) && IsDifference(expected, observed, missing)
    requires Runs(missing, freq, dateOf, runs, |missing|) && k < |runs|
    ensures var before := missing[runs[k].0] - freq; before in missing ==> dateOf(before) != dateOf(missing[runs[k].0])
    ensures var after := missing[runs[k].1] + freq; after in missing ==> dateOf(after) != dateOf(missing[runs[k].1])
  {
    var lo, hi := runs[k].0, runs[k].1;
    if missing[lo] - freq in missing && dateOf(missing[lo] - freq) == dateOf(missing[lo]) {
      AdjacentInMissing(expected, observed, missing, freq, dateOf, missing[lo] - freq, lo);
    }
    if missing[hi] + freq in missing && dateOf(missing[hi] + freq) == dateOf(missing[hi]) {
      var p :| 0 <= p < |missing| && missing[p] == missing[hi] + freq;
      AdjacentInMissing(expected, observed, missing, freq, dateOf, missing[hi], p);
      RunEndsAtBreak(missing, freq, dateOf, runs, k);
    }
  }

  lemma RunEndsAtBreak(missing: seq<int>, freq: int, dateOf: int -> int, runs: seq<(int, int)>, k: nat)
    requires Runs(missing, freq, dateOf, runs, |missing|) && k < |runs|
    ensures runs[k].1 + 1 < |missing| ==> Breaks(missing, freq, dateOf, runs[k].1 + 1)
  {
    if k + 1 < |runs| {
      assert runs[k + 1].0 == runs[k + 1 - 1].1 + 1;
    }
  }

  lemma AdjacentInMissing(expected: seq<int>, observed: seq<int>, missing: seq<int>, freq: int, dateOf: int -> int,
                          x: int, p: int)
    requires freq > 0 && SessionGrid(expected, freq, dateOf) && IsDifference(expected, observed, missing)
    requires 0 <= p < |missing| && x in missing && missing[p] == x + freq && dateOf(x) == dateOf(missing[p])
    ensures 0 < p && missing[p - 1] == x && !Breaks(missing, freq, dateOf, p)
  {
    var q :| 0 <= q < |missing| && missing[q] == x;
    assert q < p;
    var y := missing[p - 1];
    assert y in missing && missing[p] in missing;
    if y != x {
      assert q < p - 1;
      DatesAscend(expected, freq, dateOf, x, y);
      DatesAscend(expected, freq, dateOf, y, missing[p]);
      NextOnGrid(expected, freq, dateOf, x, y);
    }
  }

  // ---- the records ---------------------------------------------------------------

  predicate BothIn(expected: seq<int>, observed: seq<int>, t: int) {
    t in expected && t in observed
  }

  /** The record reported for one run of missing bars. */
  ghost predicate Reports(interval: MissingInterval, run: (int, int), missing: seq<int>, expected: seq<int>,
                          observed: seq<int>,
                          freq: int, dateOf: int -> int)
    requires 0 <= run.0 <= run.1 < |missing|
  {
    && interval.start == missing[run.0] && interval.lastStart == missing[run.1] && interval.end == interval.lastStart + freq
    && interval.barCount == run.1 - run.0 + 1
    && interval.date == dateOf(interval.start)
    && interval.previousObserved == (if BothIn(expected, observed, interval.start - freq) then Some(interval.start - freq) else None)
    && interval.nextObserved == (if BothIn(expected, observed, interval.end) then Some(interval.end) else None)
  }

  method MissingBarIntervals(missing: seq<int>, expected: seq<int>, observed: seq<int>, freq: int, dateOf: int -> int)
    returns (intervals: seq<MissingInterval>, ghost runs: seq<(int, int)>)
    ensures missing == [] <==> intervals == []
    ensures missing != [] ==> Runs(missing, freq, dateOf, runs, |missing|) && |runs| == |intervals|
    ensures missing != [] ==> forall k :: 0 <= k < |intervals| ==> Reports(intervals[k], runs[k], missing, expected, observed, freq, dateOf)
  {
    intervals, runs := [], [];
    if missing == [] { return; }
    var boundaries := GapBoundaries(missing, freq, dateOf);
    runs := boundaries;
    var k := 0;
    while k < |boundaries|
      invariant 0 <= k <= |boundaries| && |intervals| == k
      invariant forall i :: 0 <= i < k ==> Reports(intervals[i], runs[i], missing, expected, observed, freq, dateOf)
    {
      var start, last := missing[boundaries[k].0], missing[boundaries[k].1];
      var previous, next := start - freq, last + freq;
      intervals := intervals + [MissingInterval(
        start, last + freq, last, boundaries[k].1 - boundaries[k].0 + 1, dateOf(start),
        if previous in expected && previous in observed then Some(previous) else None,
        if next in expected && next in observed then Some(next) else None)];
      k := k + 1;
    }
  }

  function Difference(expected: seq<int>, observed: seq<int>): (r: seq<int>)
    ensures forall t :: t in r <==> t in expected && t !in observed
  {
    if expected == [] then []
    else if expected[0] in observed then Difference(expected[1..], observed)
    else [expected[0]] + Difference(expected[1..], observed)
  }

  lemma {:induction false} DifferenceIncreasing(expected: seq<int>, observed: seq<int>)
    requires Increasing(expected)
    ensures IsDifference(expected, observed, Difference(expected, observed))
  {
    if expected != [] {
      DifferenceIncreasing(expected[1..], observed);
      var rest := Difference(expected[1..], observed);
      forall k | 0 <= k < |rest| ensures expected[0] < rest[k] {
        assert rest[k] in rest;
        var j :| 0 <= j < |expected| - 1 && expected[1..][j] == rest[k];
        assert expected[j + 1] == rest[k];
      }
      IncreasingCons(expected[0], rest);
    }
  }

  lemma IncreasingCons(x: int, rest: seq<int>)
    requires Increasing(rest) && forall k :: 0 <= k < |rest| ==> x < rest[k]
    ensures Increasing([x] + rest)
  {
    forall i, j | 0 <= i < j < |rest| + 1 ensures ([x] + rest)[i] < ([x] + rest)[j] {
      assert ([x] + rest)[j] == rest[j - 1];
    }
  }

  function BarCountTotal(intervals: seq<MissingInterval>): nat {
    if intervals == [] then 0 else BarCountTotal(intervals[..|intervals| - 1]) + intervals[|intervals| - 1].barCount
  }

  lemma {:induction false} CountsAgree(intervals: seq<MissingInterval>, runs: seq<(int, int)>)
    requires |intervals| == |runs| && forall k :: 0 <= k < |runs| ==> intervals[k].barCount == runs[k].1 - runs[k].0 + 1
    ensures BarCountTotal(intervals) == BarTotal(runs)
  {
    if runs != [] {
      CountsAgree(intervals[..|runs| - 1], runs[..|runs| - 1]);
    }
  }

  predicate Holds(interval: MissingInterval, t: int) {
    interval.start <= t <= interval.lastStart
  }

  /** What a complete, non-overlapping gap report says about an expectation. */
  ghost predicate Exact(intervals: seq<MissingInterval>, expected: seq<int>, observed: seq<int>, freq: int,
                        dateOf: int -> int) {
    && (forall t :: t in expected ==> (t in observed <==> !exists k :: 0 <= k < |intervals| && Holds(intervals[k], t)))
    && (forall t, i, j :: t in expected && 0 <= i < j < |intervals| ==> !(Holds(intervals[i], t) && Holds(intervals[j], t)))
    && BarCountTotal(intervals) == |Difference(expected, observed)|
    && |intervals| == CountMissingBarIntervals(Difference(expected, observed), freq, dateOf)
  }

  lemma RunReportsAreExact(intervals: seq<MissingInterval>, runs: seq<(int, int)>, expected: seq<int>,
                           observed: seq<int>,
                           missing: seq<int>, freq: int, dateOf: int -> int)
    requires SessionGrid(expected, freq, dateOf) && IsDifference(expected, observed, missing)
    requires missing == Difference(expected, observed)
    requires Runs(missing, freq, dateOf, runs, |missing|) && |runs| == |intervals|
    requires forall k :: 0 <= k < |intervals| ==> Reports(intervals[k], runs[k], missing, expected, observed, freq, dateOf)
    ensures Exact(intervals, expected, observed, freq, dateOf)
  {
    assert forall k :: 0 <= k < |runs| ==> 0 <= runs[k].0 <= runs[k].1 < |missing|;
    hide Reports, SessionGrid, IsDifference, Runs;
    RunsMatchCount(missing, freq, dateOf, runs, |missing|);
    ReportedCount(intervals, runs, expected, observed, missing, freq, dateOf);
    ReportsHoldRuns(intervals, runs, expected, observed, missing, freq, dateOf);
    hide Holds, InRun;
    forall t | t in expected
      ensures t in observed <==> !exists k :: 0 <= k < |intervals| && Holds(intervals[k], t)
    {
      EachExpectedBarOnce(expected, observed, missing, freq, dateOf, runs, t);
    }
    forall t, i, j | t in expected && 0 <= i < j < |intervals|
      ensures !(Holds(intervals[i], t) && Holds(intervals[j], t))
    {
      EachExpectedBarOnce(expected, observed, missing, freq, dateOf, runs, t);
    }
  }

  lemma ReportedCount(intervals: seq<MissingInterval>, runs: seq<(int, int)>, expected: seq<int>, observed: seq<int>,
                      missing: seq<int>, freq: int, dateOf: int -> int)
    requires |runs| == |intervals|
    requires forall k :: 0 <= k < |runs| ==> 0 <= runs[k].0 <= runs[k].1 < |missing|
    requires forall k :: 0 <= k < |intervals| ==> Reports(intervals[k], runs[k], missing, expected, observed, freq, dateOf)
    ensures BarCountTotal(intervals) == BarTotal(runs)
  {
    CountsAgree(intervals, runs);
  }

  lemma ReportsHoldRuns(intervals: seq<MissingInterval>, runs: seq<(int, int)>, expected: seq<int>, observed: seq<int>,
                        missing: seq<int>, freq: int, dateOf: int -> int)
    requires |runs| == |intervals|
    requires forall k :: 0 <= k < |runs| ==> 0 <= runs[k].0 <= runs[k].1 < |missing|
    requires forall k :: 0 <= k < |intervals| ==> Reports(intervals[k], runs[k], missing, expected, observed, freq, dateOf)
    ensures forall k, t :: 0 <= k < |intervals| ==> Holds(intervals[k], t) == InRun(missing, runs[k], t)
  {
  }

  /** Time covered by so many consecutive bars. */
  function Width(bars: nat, freq: int): int {
    bars * freq
  }

  /** Inside a run the bars are consecutive bars of one session. */
  lemma {:induction false} RunIsConsecutive(missing: seq<int>, freq: int, dateOf: int -> int, runs: seq<(int, int)>,
                                            k: nat, p: int)
    requires Runs(missing, freq, dateOf, runs, |missing|) && k < |runs| && runs[k].0 <= p <= runs[k].1
    ensures missing[p] + freq == missing[runs[k].0] + Width(p - runs[k].0 + 1, freq)
    ensures dateOf(missing[p]) == dateOf(missing[runs[k].0])
    decreases p
  {
    if p > runs[k].0 {
      RunIsConsecutive(missing, freq, dateOf, runs, k, p - 1);
      assert !Breaks(missing, freq, dateOf, p);
      hide Runs;
      assert Width(p - runs[k].0 + 1, freq) == Width(p - runs[k].0, freq) + freq;
    }
  }

  predicate MissingBar(expected: seq<int>, observed: seq<int>, t: int) {
    t in expected && t !in observed
  }

  /** One reported gap: consecutive missing bars of one session, as many as counted, that
      cannot be extended, and the observed bars on either side if there are any. */
  ghost predicate Faithful(interval: MissingInterval, expected: seq<int>, observed: seq<int>, freq: int,
                           dateOf: int -> int) {
    && MissingBar(expected, observed, interval.start) && MissingBar(expected, observed, interval.lastStart)
    && interval.end == interval.lastStart + freq == interval.start + Width(interval.barCount, freq)
    && interval.date == dateOf(interval.start) == dateOf(interval.lastStart)
    && !(MissingBar(expected, observed, interval.start - freq) && dateOf(interval.start - freq) == interval.date)
    && !(MissingBar(expected, observed, interval.end) && dateOf(interval.end) == interval.date)
    && interval.previousObserved == (if BothIn(expected, observed, interval.start - freq) then Some(interval.start - freq) else None)
    && interval.nextObserved == (if BothIn(expected, observed, interval.end) then Some(interval.end) else None)
  }

  lemma ReportIsFaithful(interval: MissingInterval, runs: seq<(int, int)>, k: nat, expected: seq<int>,
                         observed: seq<int>,
                         missing: seq<int>, freq: int, dateOf: int -> int)
    requires freq > 0 && SessionGrid(expected, freq, dateOf) && IsDifference(expected, observed, missing)
    requires Runs(missing, freq, dateOf, runs, |missing|) && k < |runs| && 0 <= runs[k].0 <= runs[k].1 < |missing|
    requires Reports(interval, runs[k], missing, expected, observed, freq, dateOf)
    ensures Faithful(interval, expected, observed, freq, dateOf)
  {
    hide Width, Runs, SessionGrid, BothIn;
    RunIsConsecutive(missing, freq, dateOf, runs, k, runs[k].1);
    RunsAreMaximal(expected, observed, missing, freq, dateOf, runs, k);
    assert missing[runs[k].0] in missing && missing[runs[k].1] in missing;
  }

  /** Missing bars of one instrument: between its first and last observed bar, each
      session bar start is observed or lies in exactly one reported interval; the
      bar counts add up to the missing bars and the intervals to their count. */
  method DetectMissingBars(observed: seq<int>, sessions: seq<Session>, freq: int, dateOf: int -> int)
    returns (intervals: seq<MissingInterval>)
    requires freq > 0 && Increasing(observed) && ValidCalendar(sessions, dateOf)
    ensures |observed| < 2 ==> intervals == []
    ensures |observed| >= 2 ==>
      Exact(intervals, ExpectedSessionBarStarts(sessions, observed[0], observed[|observed| - 1], freq), observed, freq, dateOf)
    ensures |observed| >= 2 ==> forall k :: 0 <= k < |intervals| ==>
      Faithful(intervals[k], ExpectedSessionBarStarts(sessions, observed[0], observed[|observed| - 1], freq), observed, freq, dateOf)
  {
    hide Faithful, Exact, Runs, Reports, SessionGrid, IsDifference;
    if |observed| < 2 { return []; }
    var expected := ExpectedSessionBarStarts(sessions, observed[0], observed[|observed| - 1], freq);
    AllStartsGrid(sessions, freq, dateOf);
    BetweenGrid(AllStarts(sessions, freq), observed[0], observed[|observed| - 1], freq, dateOf);
    DifferenceIncreasing(expected, observed);
    var missing := Difference(expected, observed);
    ghost var runs;
    intervals, runs := MissingBarIntervals(missing, expected, observed, freq, dateOf);
    if missing != [] {
      RunReportsAreExact(intervals, runs, expected, observed, missing, freq, dateOf);
      forall k | 0 <= k < |intervals| ensures Faithful(intervals[k], expected, observed, freq, dateOf) {
        ReportIsFaithful(intervals[k], runs, k, expected, observed, missing, freq, dateOf);
      }
    } else {
      NoGapIsExact(expected, observed, freq, dateOf);
    }
  }

  lemma NoGapIsExact(expected: seq<int>, observed: seq<int>, freq: int, dateOf: int -> int)
    requires Difference(expected, observed) == [] && IsDifference(expected, observed, [])
    ensures Exact([], expected, observed, freq, dateOf)
  {
  }
}
