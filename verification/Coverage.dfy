/** Manifest selection and the coverage sweep of market_pipeline_lib/runtime_export.py. */
module Coverage {
  import opened Common

  /** A half-open range of dates; an end on or before the start covers nothing. */
  datatype Interval = Interval(start: int, end: int)

  datatype ExportError = NoManifest | Gap(at: int, next: int) | EndsAt(at: int)

  predicate Contains(i: Interval, day: int) {
    i.start <= day < i.end
  }

  ghost predicate Covered(intervals: seq<Interval>, day: int) {
    exists k :: 0 <= k < |intervals| && Contains(intervals[k], day)
  }

  ghost predicate Covers(intervals: seq<Interval>, lo: int, hi: int) {
    forall day :: lo <= day < hi ==> Covered(intervals, day)
  }

  predicate StartsBefore(a: Interval, b: Interval) {
    a.start < b.start || (a.start == b.start && a.end <= b.end)
  }

  /** First date after the sweep; an empty selection still asks for its start date. */
  function SweepEnd(start: int, endExclusive: int): int {
    if endExclusive <= start then start + 1 else endExclusive
  }

  lemma CoveredAfterSorting(intervals: seq<Interval>, day: int)
    ensures Covered(SortBy(intervals, StartsBefore), day) <==> Covered(intervals, day)
  {
    var sorted := SortBy(intervals, StartsBefore);
    SortByCorrect(intervals, StartsBefore);
    if Covered(intervals, day) {
      var k :| 0 <= k < |intervals| && Contains(intervals[k], day);
      assert intervals[k] in sorted;
    }
    if Covered(sorted, day) {
      var k :| 0 <= k < |sorted| && Contains(sorted[k], day);
      assert sorted[k] in intervals;
    }
  }

  /** Returns normally exactly when every date of the selection lies in some
      interval; otherwise it stops at the first date that lies in none. */
  method AssertCompleteCoverage(intervals: seq<Interval>, start: int, endExclusive: int)
    returns (r: Result<(), ExportError>)
    ensures r.Ok? <==> Covers(intervals, start, SweepEnd(start, endExclusive))
    ensures r.Err? ==> r.error.Gap? || r.error.EndsAt?
    ensures r.Err? ==> start <= r.error.at < SweepEnd(start, endExclusive) && !Covered(intervals, r.error.at)
    ensures r.Err? ==> Covers(intervals, start, r.error.at)
    ensures r.Err? && r.error.Gap? ==> forall day :: r.error.at <= day < r.error.next ==> !Covered(intervals, day)
    ensures r.Err? && r.error.EndsAt? ==> forall day :: r.error.at <= day ==> !Covered(intervals, day)
  {
    var sorted := SortBy(intervals, StartsBefore);
    SortByCorrect(intervals, StartsBefore);
    forall day ensures Covered(sorted, day) <==> Covered(intervals, day) {
      CoveredAfterSorting(intervals, day);
    }
    var cursor := start;
    var k := 0;
    while k < |sorted|
      invariant 0 <= k <= |sorted|
      invariant start <= cursor && (cursor == start || cursor < endExclusive)
      invariant Covers(sorted, start, cursor)
      invariant forall j :: 0 <= j < k ==> sorted[j].end <= cursor
    {
      var interval := sorted[k];
      if interval.end > cursor {
        if interval.start > cursor {
          forall j | k <= j < |sorted| ensures interval.start <= sorted[j].start {
            assert j == k || StartsBefore(sorted[k], sorted[j]);
          }
          forall day | cursor <= day < interval.start ensures !Covered(intervals, day) {
            assert !Covered(sorted, day);
          }
          assert !Covered(intervals, cursor);
          return Err(Gap(cursor, interval.start));
        }
        forall day | cursor <= day < interval.end ensures Covered(sorted, day) {
          assert Contains(sorted[k], day);
        }
        cursor := interval.end;
        if cursor >= endExclusive {
          return Ok(());
        }
      }
      k := k + 1;
    }
    forall day | cursor <= day ensures !Covered(intervals, day) {
      assert !Covered(sorted, day);
    }
    assert !Covered(intervals, cursor);
    r := Err(EndsAt(cursor));
  }

  // ---- latest-per-period -------------------------------------------------------

  datatype Manifest = Manifest(id: int, available: bool, matches: bool,
                               periodStart: int, periodEnd: int, revision: int)

  datatype Selection = Selection(start: int, endExclusive: int, latestPerPeriod: bool)

  type Period = (int, int)

  function PeriodOf(m: Manifest): Period { (m.periodStart, m.periodEnd) }

  /** The ET dates of a manifest's observed period. */
  function PeriodDates(m: Manifest, dateOf: int -> int): Interval {
    Interval(dateOf(m.periodStart), dateOf(m.periodEnd))
  }

  predicate IsCandidate(m: Manifest, s: Selection, dateOf: int -> int) {
    m.available && m.matches && PeriodDates(m, dateOf).start < s.endExclusive && PeriodDates(m, dateOf).end > s.start
  }

  function Candidates(rows: seq<Manifest>, s: Selection, dateOf: int -> int): (c: seq<Manifest>)
    ensures forall m :: m in c <==> m in rows && IsCandidate(m, s, dateOf)
  {
    if rows == [] then []
    else if IsCandidate(rows[0], s, dateOf) then [rows[0]] + Candidates(rows[1..], s, dateOf)
    else Candidates(rows[1..], s, dateOf)
  }

  /** Row k is the first among rows[..n] with the highest revision of its period. */
  ghost predicate FirstLatest(rows: seq<Manifest>, n: nat, k: nat) {
    && k < n <= |rows|
    && (forall j :: 0 <= j < n && PeriodOf(rows[j]) == PeriodOf(rows[k]) ==> rows[j].revision <= rows[k].revision)
    && (forall j :: 0 <= j < k && PeriodOf(rows[j]) == PeriodOf(rows[k]) ==> rows[j].revision < rows[k].revision)
  }

  /** m is the row the fold keeps for its period. */
  ghost predicate IsLatest(rows: seq<Manifest>, m: Manifest) {
    exists k: nat :: FirstLatest(rows, |rows|, k) && rows[k] == m
  }

  /** The fold's state after n rows: at[p] is the row kept for period p. */
  ghost predicate Folded(rows: seq<Manifest>, n: nat, order: seq<Period>, at: map<Period, nat>) {
    && n <= |rows|
    && (forall p :: p in order <==> p in at)
    && (forall i, j :: 0 <= i < j < |order| ==> order[i] != order[j])
    && (forall p :: p in at ==> FirstLatest(rows, n, at[p]) && PeriodOf(rows[at[p]]) == p)
    && (forall k :: 0 <= k < n ==> PeriodOf(rows[k]) in at)
  }

  lemma FoldStep(rows: seq<Manifest>, n: nat, order: seq<Period>, at: map<Period, nat>)
    requires n < |rows| && Folded(rows, n, order, at)
    ensures var p := PeriodOf(rows[n]);
      if p !in at then Folded(rows, n + 1, order + [p], at[p := n])
      else if at[p] < |rows| && rows[n].revision > rows[at[p]].revision then Folded(rows, n + 1, order, at[p := n])
      else Folded(rows, n + 1, order, at)
  {
    var p := PeriodOf(rows[n]);
    forall q | q in at && (q != p || rows[n].revision <= rows[at[q]].revision) ensures FirstLatest(rows, n + 1, at[q]) {
      assert FirstLatest(rows, n, at[q]);
    }
    if p in at {
      assert FirstLatest(rows, n, at[p]);
      if rows[n].revision > rows[at[p]].revision {
        assert FirstLatest(rows, n + 1, n);
      }
    } else {
      assert FirstLatest(rows, n + 1, n);
    }
  }

  ghost predicate OneLatestPerPeriod(rows: seq<Manifest>, latest: seq<Manifest>) {
    && (forall i, j :: 0 <= i < j < |latest| ==> PeriodOf(latest[i]) != PeriodOf(latest[j]))
    && (forall m :: m in rows ==> exists i :: 0 <= i < |latest| && PeriodOf(latest[i]) == PeriodOf(m))
    && (forall i :: 0 <= i < |latest| ==> IsLatest(rows, latest[i]))
  }

  lemma FoldResult(rows: seq<Manifest>, order: seq<Period>, at: map<Period, nat>, latest: seq<Manifest>)
    requires Folded(rows, |rows|, order, at)
    requires |latest| == |order| && forall i :: 0 <= i < |order| ==> order[i] in at && at[order[i]] < |rows| && latest[i] == rows[at[order[i]]]
    ensures OneLatestPerPeriod(rows, latest)
  {
    forall i | 0 <= i < |latest|
      ensures IsLatest(rows, latest[i])
    {
      var k: nat := at[order[i]];
      assert order[i] in at;
      assert FirstLatest(rows, |rows|, k) && rows[k] == latest[i];
    }
    forall m | m in rows ensures exists i :: 0 <= i < |latest| && PeriodOf(latest[i]) == PeriodOf(m) {
      var i :| 0 <= i < |order| && order[i] == PeriodOf(m);
      assert PeriodOf(latest[i]) == PeriodOf(m);
    }
  }

  /** One row per period, in the order the periods first appear. */
  method LatestPerPeriod(rows: seq<Manifest>) returns (latest: seq<Manifest>)
    ensures OneLatestPerPeriod(rows, latest)
  {
    hide Folded, OneLatestPerPeriod;
    var byPeriod: map<Period, Manifest> := map[];
    var order: seq<Period> := [];
    ghost var at: map<Period, nat> := map[];
    var n := 0;
    NothingFolded(rows);
    while n < |rows|
      invariant 0 <= n <= |rows|
      invariant Folded(rows, n, order, at)
      invariant byPeriod.Keys == at.Keys
      invariant forall p :: p in at ==> at[p] < |rows| && byPeriod[p] == rows[at[p]]
      invariant forall p :: p in order ==> p in byPeriod
    {
      var row := rows[n];
      var key := PeriodOf(row);
      FoldStep(rows, n, order, at);
      if key !in byPeriod {
        order := order + [key];
        byPeriod := byPeriod[key := row];
        at := at[key := n];
      } else if row.revision > byPeriod[key].revision {
        byPeriod := byPeriod[key := row];
        at := at[key := n];
      }
      n := n + 1;
    }
    latest := seq(|order|, i requires 0 <= i < |order| => byPeriod[order[i]]);
    FoldResult(rows, order, at, latest);
  }

  lemma NothingFolded(rows: seq<Manifest>)
    ensures Folded(rows, 0, [], map[])
  {
  }

  function Dates(rows: seq<Manifest>, dateOf: int -> int): (d: seq<Interval>)
    ensures |d| == |rows| && forall i :: 0 <= i < |d| ==> d[i] == PeriodDates(rows[i], dateOf)
  {
    seq(|rows|, i requires 0 <= i < |rows| => PeriodDates(rows[i], dateOf))
  }

  /** Keeping one row per period neither adds nor removes a covered date. */
  lemma SamePeriodsSameCoverage(a: seq<Manifest>, b: seq<Manifest>, dateOf: int -> int, day: int)
    requires forall m :: m in a ==> exists i :: 0 <= i < |b| && PeriodOf(b[i]) == PeriodOf(m)
    ensures Covered(Dates(a, dateOf), day) ==> Covered(Dates(b, dateOf), day)
  {
    if Covered(Dates(a, dateOf), day) {
      var k :| 0 <= k < |a| && Contains(Dates(a, dateOf)[k], day);
      assert a[k] in a;
      var i :| 0 <= i < |b| && PeriodOf(b[i]) == PeriodOf(a[k]);
      assert Contains(Dates(b, dateOf)[i], day);
    }
  }

  /** One resolution of the export: it is provable exactly when some AVAILABLE
      manifest matches and the matching ones cover every selected date; what is
      selected are matching manifests, the newest of each period when asked. */
  method SelectManifests(rows: seq<Manifest>, s: Selection, dateOf: int -> int)
    returns (r: Result<seq<Manifest>, ExportError>)
    requires s.start < s.endExclusive
    ensures r.Ok? <==> Candidates(rows, s, dateOf) != [] &&
                       Covers(Dates(Candidates(rows, s, dateOf), dateOf), s.start, s.endExclusive)
    ensures r.Ok? ==> Covers(Dates(r.value, dateOf), s.start, s.endExclusive)
    ensures r.Ok? ==> forall m :: m in r.value ==> m in rows && IsCandidate(m, s, dateOf)
    ensures r.Ok? && s.latestPerPeriod ==>
      forall m, other :: m in r.value && other in rows && IsCandidate(other, s, dateOf) && PeriodOf(other) == PeriodOf(m)
        ==> other.revision <= m.revision
    ensures r.Ok? && s.latestPerPeriod ==>
      forall i, j :: 0 <= i < j < |r.value| ==> PeriodOf(r.value[i]) != PeriodOf(r.value[j])
  {
    var candidates := Candidates(rows, s, dateOf);
    if candidates == [] { return Err(NoManifest); }
    var kept := candidates;
    if s.latestPerPeriod {
      kept := LatestPerPeriod(candidates);
      forall m | m in kept ensures exists i :: 0 <= i < |candidates| && PeriodOf(candidates[i]) == PeriodOf(m) {
        var i :| 0 <= i < |kept| && kept[i] == m;
        var k: nat :| FirstLatest(candidates, |candidates|, k) && candidates[k] == kept[i];
      }
      forall day ensures Covered(Dates(kept, dateOf), day) <==> Covered(Dates(candidates, dateOf), day) {
        SamePeriodsSameCoverage(kept, candidates, dateOf, day);
        SamePeriodsSameCoverage(candidates, kept, dateOf, day);
      }
    }
    var covered := AssertCompleteCoverage(Dates(kept, dateOf), s.start, s.endExclusive);
    if covered.Err? { return Err(covered.error); }
    r := Ok(kept);
  }
}
