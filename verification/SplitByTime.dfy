/** Splitting a bar table on timestamp boundaries until every part fits:
    market_pipeline_lib/processing.py and the size worklist of engine.py. */
module SplitByTime {
  import opened Common

  datatype Bar = Bar(instrument: nat, start: int, body: int)

  type Table = seq<Bar>

  predicate ByInstrument(a: Bar, b: Bar) {
    a.instrument < b.instrument || (a.instrument == b.instrument && a.start <= b.start)
  }

  predicate ByTime(a: Bar, b: Bar) {
    a.start < b.start || (a.start == b.start && a.instrument <= b.instrument)
  }

  function SortBarTable(t: Table): (r: Table)
    ensures |r| == |t|
  {
    SortBy(t, ByInstrument)
  }

  function Flatten(parts: seq<Table>): Table {
    if parts == [] then [] else parts[0] + Flatten(parts[1..])
  }

  lemma {:induction false} FlattenJoin(a: seq<Table>, b: seq<Table>)
    ensures Flatten(a + b) == Flatten(a) + Flatten(b)
  {
    if a == [] {
      assert a + b == b;
    } else {
      FlattenJoin(a[1..], b);
      assert (a + b)[0] == a[0] && (a + b)[1..] == a[1..] + b;
    }
  }

  ghost predicate Before(a: Table, b: Table) {
    forall x, y :: x in a && y in b ==> x.start < y.start
  }

  /** The parts hold exactly the table's rows, in strict time order, so no two of
      them share a timestamp; none is empty. */
  ghost predicate TimePartition(t: Table, parts: seq<Table>) {
    && multiset(Flatten(parts)) == multiset(t)
    && (forall i, j :: 0 <= i < j < |parts| ==> Before(parts[i], parts[j]))
    && (forall i :: 0 <= i < |parts| ==> parts[i] != [])
  }

  ghost predicate OneTimestamp(t: Table) {
    forall i, j :: 0 <= i < |t| && 0 <= j < |t| ==> t[i].start == t[j].start
  }

  // ---- cutting one table -----------------------------------------------------------

  /** Rows from p on that share the timestamp of row p. */
  function RunLength(s: Table, p: nat): (r: nat)
    requires p < |s|
    ensures 1 <= r <= |s| - p
    ensures forall k :: p <= k < p + r ==> s[k].start == s[p].start
    ensures p + r < |s| ==> s[p + r].start != s[p].start
    decreases |s| - p
  {
    if p + 1 < |s| && s[p + 1].start == s[p].start then 1 + RunLength(s, p + 1) else 1
  }

  /** Group sizes in time order: `groupby("bar_start_at", sort=True).size()`. */
  function GroupSizes(s: Table, p: nat): seq<nat>
    requires p <= |s|
    decreases |s| - p
  {
    if p == |s| then [] else [RunLength(s, p)] + GroupSizes(s, p + RunLength(s, p))
  }

  lemma GroupSizesHead(s: Table, p: nat)
    requires p <= |s| && GroupSizes(s, p) != []
    ensures p < |s| && GroupSizes(s, p) == [RunLength(s, p)] + GroupSizes(s, p + RunLength(s, p))
  {
  }

  ghost predicate Boundary(s: Table, c: int) {
    c == 0 || c == |s| || (0 < c < |s| && s[c - 1].start < s[c].start)
  }

  function From(cuts: seq<nat>, k: nat): nat
    requires k <= |cuts|
  {
    if k == 0 then 0 else cuts[k - 1]
  }

  /** Piece k is a stretch between timestamp boundaries that exceeds max only
      when it holds one timestamp. */
  ghost predicate PieceFits(s: Table, cuts: seq<nat>, max: nat, k: nat)
    requires k < |cuts|
  {
    && From(cuts, k) < cuts[k] <= |s| && Boundary(s, cuts[k])
    && (cuts[k] - From(cuts, k) <= max || OneTimestamp(s[From(cuts, k)..cuts[k]]))
  }

  /** Piece k was closed only because the next timestamp no longer fitted. */
  ghost predicate PieceIsFull(s: Table, cuts: seq<nat>, max: nat, k: nat)
    requires k < |cuts|
  {
    From(cuts, k) <= cuts[k] < |s| ==> cuts[k] - From(cuts, k) + RunLength(s, cuts[k]) > max
  }

  ghost predicate GreedyCuts(s: Table, cuts: seq<nat>, max: nat) {
    forall k: nat :: k < |cuts| ==> PieceFits(s, cuts, max, k) && PieceIsFull(s, cuts, max, k)
  }

  lemma AppendCut(s: Table, cuts: seq<nat>, max: nat, c: nat)
    requires GreedyCuts(s, cuts, max)
    requires PieceFits(s, cuts + [c], max, |cuts|) && PieceIsFull(s, cuts + [c], max, |cuts|)
    ensures GreedyCuts(s, cuts + [c], max)
  {
    forall k: nat | k < |cuts| ensures PieceFits(s, cuts + [c], max, k) && PieceIsFull(s, cuts + [c], max, k) {
      assert PieceFits(s, cuts, max, k) && PieceIsFull(s, cuts, max, k);
      assert From(cuts + [c], k) == From(cuts, k);
    }
  }

  /** The loop's state: closed pieces, then an open one from `start` of `running` rows. */
  ghost predicate CutState(s: Table, max: nat, cuts: seq<nat>, start: nat, running: nat) {
    && start == From(cuts, |cuts|) && start + running <= |s|
    && Boundary(s, start + running) && GreedyCuts(s, cuts, max)
    && (running == 0 ==> start == 0)
    && (running > 0 ==> running <= max || OneTimestamp(s[start..start + running]))
  }

  lemma CloseAndOpen(s: Table, max: nat, cuts: seq<nat>, start: nat, running: nat)
    requires SortedBy(ByTime, s) && CutState(s, max, cuts, start, running) && start + running < |s|
    requires running > 0 && running + RunLength(s, start + running) > max
    ensures CutState(s, max, cuts + [start + running], start + running, RunLength(s, start + running))
  {
    hide GreedyCuts, RunLength, Boundary, OneTimestamp, SortedBy;
    var p := start + running;
    GroupEndsAtBoundary(s, p);
    assert From(cuts + [p], |cuts|) == start && From(cuts + [p], |cuts| + 1) == p;
    assert PieceFits(s, cuts + [p], max, |cuts|) && PieceIsFull(s, cuts + [p], max, |cuts|);
    hide PieceFits, PieceIsFull;
    AppendCut(s, cuts, max, p);
  }

  lemma Extend(s: Table, max: nat, cuts: seq<nat>, start: nat, running: nat)
    requires SortedBy(ByTime, s) && CutState(s, max, cuts, start, running) && start + running < |s|
    requires running == 0 || running + RunLength(s, start + running) <= max
    ensures CutState(s, max, cuts, start, running + RunLength(s, start + running))
  {
    GroupEndsAtBoundary(s, start + running);
  }

  lemma CloseLast(s: Table, max: nat, cuts: seq<nat>, start: nat, running: nat)
    requires CutState(s, max, cuts, start, running) && start + running == |s| && s != []
    ensures GreedyCuts(s, cuts + [|s|], max)
  {
    assert From(cuts + [|s|], |cuts|) == start;
    AppendCut(s, cuts, max, |s|);
  }

  /** The greedy loop over the group sizes of a time-sorted table. */
  method CutPositions(s: Table, max: nat) returns (cuts: seq<nat>)
    requires SortedBy(ByTime, s) && s != []
    ensures GreedyCuts(s, cuts, max)
    ensures cuts != [] && cuts[|cuts| - 1] == |s|
  {
    hide CutState, GroupSizes, RunLength, GreedyCuts;
    var counts := GroupSizes(s, 0);
    var start: nat, running: nat, i := 0, 0, 0;
    cuts := [];
    NothingCut(s, max);
    while i < |counts|
      invariant 0 <= i <= |counts| && start + running <= |s|
      invariant CutState(s, max, cuts, start, running)
      invariant counts[i..] == GroupSizes(s, start + running)
      invariant running == 0 ==> i == 0
    {
      var count := counts[i];
      GroupSizesHead(s, start + running);
      assert counts[i..] == [count] + counts[i + 1..];
      if running > 0 && running + count > max {
        CloseAndOpen(s, max, cuts, start, running);
        cuts := cuts + [start + running];
        start := start + running;
        running := 0;
      } else {
        Extend(s, max, cuts, start, running);
      }
      running := running + count;
      i := i + 1;
    }
    NoGroupsLeft(s, start + running);
    CloseLast(s, max, cuts, start, running);
    cuts := cuts + [|s|];
  }

  lemma NothingCut(s: Table, max: nat)
    ensures CutState(s, max, [], 0, 0)
  {
  }

  lemma NoGroupsLeft(s: Table, p: nat)
    requires p <= |s| && GroupSizes(s, p) == []
    ensures p == |s|
  {
  }

  lemma GroupEndsAtBoundary(s: Table, p: nat)
    requires SortedBy(ByTime, s) && p < |s|
    ensures Boundary(s, p + RunLength(s, p))
    ensures OneTimestamp(s[p..p + RunLength(s, p)])
  {
    var q := p + RunLength(s, p);
    if q < |s| {
      assert ByTime(s[q - 1], s[q]) && s[q - 1].start == s[p].start;
    }
  }

  lemma BeforeWithin(a: Table, b: Table, x: Table, y: Table)
    requires Before(a, b) && (forall r :: r in x ==> r in a) && (forall r :: r in y ==> r in b)
    ensures Before(x, y)
  {
  }

  lemma AppendPiece(a: Table, parts: seq<Table>, b: Table)
    requires TimePartition(a, parts) && Before(a, b) && b != []
    ensures TimePartition(a + b, parts + [SortBarTable(b)])
  {
    var part := SortBarTable(b);
    SortByCorrect(b, ByInstrument);
    hide SortBarTable, Before;
    FlattenJoin(parts, [part]);
    assert Flatten([part]) == part + Flatten([]) == part;
    forall i | 0 <= i < |parts| ensures Before(parts[i], part) {
      forall x | x in parts[i] ensures x in a { PartRowInTable(a, parts, i, x); }
      BeforeWithin(a, b, parts[i], part);
    }
  }

  lemma PartRowInTable(t: Table, parts: seq<Table>, i: nat, x: Bar)
    requires multiset(Flatten(parts)) == multiset(t) && i < |parts| && x in parts[i]
    ensures x in t
  {
    InFlatten(parts, i, x);
    assert x in multiset(Flatten(parts));
    assert x in multiset(t);
  }

  lemma {:induction false} InFlatten(parts: seq<Table>, i: nat, x: Bar)
    requires i < |parts| && x in parts[i]
    ensures x in Flatten(parts)
  {
    if i > 0 { InFlatten(parts[1..], i - 1, x); }
  }

  /** Part k is the k-th stretch between cuts, sorted by instrument again. */
  ghost predicate IsPiece(s: Table, cuts: seq<nat>, k: nat, part: Table)
    requires k < |cuts|
  {
    From(cuts, k) <= cuts[k] <= |s| && part == SortBarTable(s[From(cuts, k)..cuts[k]])
  }

  /** What a split promises: one sorted part when the table is small enough, else
      the greedy cut of the time-sorted table, each piece sorted again. */
  ghost predicate IsSplit(t: Table, max: nat, parts: seq<Table>, cuts: seq<nat>) {
    if |t| <= max then parts == [SortBarTable(t)]
    else
      var s := SortBy(t, ByTime);
      && |parts| == |cuts| && cuts != [] && cuts[|cuts| - 1] == |s| && GreedyCuts(s, cuts, max)
      && forall k: nat :: k < |parts| ==> IsPiece(s, cuts, k, parts[k])
  }

  /** Splits on timestamp boundaries so parts never overlap in time. */
  method SplitTableByTime(t: Table, max: nat) returns (parts: seq<Table>, ghost cuts: seq<nat>)
    ensures IsSplit(t, max, parts, cuts)
    ensures t != [] ==> TimePartition(t, parts)
    ensures forall k :: 0 <= k < |parts| && |parts[k]| > max ==> OneTimestamp(parts[k])
  {
    if |t| <= max {
      SortByCorrect(t, ByInstrument);
      parts, cuts := [SortBarTable(t)], [];
      assert Flatten(parts) == parts[0] + Flatten([]) == parts[0];
      return;
    }
    var s := SortBy(t, ByTime);
    SortByCorrect(t, ByTime);
    var bounds := CutPositions(s, max);
    cuts := bounds;
    parts := [];
    var lower, k: nat := 0, 0;
    assert s[..0] == [];
    while k < |bounds|
      invariant k <= |bounds| == |cuts|
      invariant SplitState(s, max, bounds, parts, lower, k)
    {
      hide SplitState, GreedyCuts;
      var upper := bounds[k];
      NextPart(s, max, bounds, parts, lower, k);
      parts := parts + [SortBarTable(s[lower..upper])];
      lower := upper;
      k := k + 1;
    }
    assert s[..lower] == s;
    PartitionOfReordering(s, t, parts);
    forall j: nat | j < |parts| && |parts[j]| > max ensures OneTimestamp(parts[j]) {
      OversizedPieces(s, max, cuts, j, parts[j]);
    }
  }

  lemma PartitionOfReordering(s: Table, t: Table, parts: seq<Table>)
    requires multiset(s) == multiset(t) && TimePartition(s, parts)
    ensures TimePartition(t, parts)
  {
  }

  /** The slicing loop after k pieces. */
  ghost predicate SplitState(s: Table, max: nat, cuts: seq<nat>, parts: seq<Table>, lower: nat, k: nat) {
    && |parts| == k <= |cuts| && lower == From(cuts, k) <= |s| && Boundary(s, lower)
    && TimePartition(s[..lower], parts)
    && (forall j: nat :: j < k ==> IsPiece(s, cuts, j, parts[j]))
  }

  lemma OversizedPieces(s: Table, max: nat, cuts: seq<nat>, k: nat, part: Table)
    requires GreedyCuts(s, cuts, max) && k < |cuts| && IsPiece(s, cuts, k, part) && |part| > max
    ensures OneTimestamp(part)
  {
    assert PieceFits(s, cuts, max, k);
    SortKeepsTimestamp(s[From(cuts, k)..cuts[k]]);
  }

  lemma NextPart(s: Table, max: nat, cuts: seq<nat>, parts: seq<Table>, lower: nat, k: nat)
    requires SortedBy(ByTime, s) && GreedyCuts(s, cuts, max) && k < |cuts|
    requires SplitState(s, max, cuts, parts, lower, k)
    ensures lower <= cuts[k] <= |s|
    ensures SplitState(s, max, cuts, parts + [SortBarTable(s[lower..cuts[k]])], cuts[k], k + 1)
  {
    assert PieceFits(s, cuts, max, k);
    var upper := cuts[k];
    var piece := s[lower..upper];
    assert IsPiece(s, cuts, k, SortBarTable(piece));
    hide GreedyCuts, TimePartition, PieceFits, SortBarTable, Before, IsPiece;
    PiecesAscend(s, lower, upper);
    AppendPiece(s[..lower], parts, piece);
    assert s[..lower] + piece == s[..upper];
  }

  lemma PiecesAscend(s: Table, lower: nat, upper: nat)
    requires SortedBy(ByTime, s) && Boundary(s, lower) && lower < upper <= |s|
    ensures Before(s[..lower], s[lower..upper])
  {
    forall x, y | x in s[..lower] && y in s[lower..upper] ensures x.start < y.start {
      var i :| 0 <= i < lower && s[i] == x;
      var j :| lower <= j < upper && s[j] == y;
      assert i == lower - 1 || ByTime(s[i], s[lower - 1]);
      assert j == lower || ByTime(s[lower], s[j]);
    }
  }

  lemma SortKeepsTimestamp(t: Table)
    requires OneTimestamp(t)
    ensures OneTimestamp(SortBarTable(t))
  {
    var r := SortBarTable(t);
    SortByCorrect(t, ByInstrument);
    forall i, j | 0 <= i < |r| && 0 <= j < |r| ensures r[i].start == r[j].start {
      assert r[i] in t && r[j] in t;
    }
  }

  // ---- the size worklist -------------------------------------------------------------

  /** 2 * rows - 1 summed over the queue. */
  ghost function Measure(queue: seq<Table>): int {
    if queue == [] then 0 else 2 * |queue[0]| - 1 + Measure(queue[1..])
  }

  lemma {:induction false} MeasureJoin(a: seq<Table>, b: seq<Table>)
    ensures Measure(a + b) == Measure(a) + Measure(b)
  {
    if a == [] {
      assert a + b == b;
    } else {
      MeasureJoin(a[1..], b);
      assert (a + b)[0] == a[0] && (a + b)[1..] == a[1..] + b;
    }
  }

  lemma {:induction false} MeasureOfParts(parts: seq<Table>)
    ensures Measure(parts) == 2 * |Flatten(parts)| - |parts|
  {
    if parts != [] { MeasureOfParts(parts[1..]); }
  }

  lemma {:induction false} MeasureIsNonNegative(parts: seq<Table>)
    requires forall i :: 0 <= i < |parts| ==> parts[i] != []
    ensures Measure(parts) >= |parts|
  {
    if parts != [] { MeasureIsNonNegative(parts[1..]); }
  }

  lemma RefinedRows(t: Table, a: seq<Table>, c: Table, b: seq<Table>, halves: seq<Table>)
    requires multiset(Flatten(a + [c] + b)) == multiset(t) && multiset(Flatten(halves)) == multiset(c)
    ensures multiset(Flatten(a + halves + b)) == multiset(t)
  {
    FlattenJoin(a + [c], b);
    FlattenJoin(a, [c]);
    FlattenJoin(a + halves, b);
    FlattenJoin(a, halves);
    assert Flatten([c]) == c + Flatten([]) == c;
  }

  lemma RefinedPair(t: Table, a: seq<Table>, c: Table, b: seq<Table>, halves: seq<Table>, i: nat, j: nat)
    requires TimePartition(t, a + [c] + b) && TimePartition(c, halves) && i < j < |a + halves + b|
    ensures Before((a + halves + b)[i], (a + halves + b)[j])
  {
    hide Flatten;
    var ci, cj := CoarseIndex(|a|, |halves|, i), CoarseIndex(|a|, |halves|, j);
    FineInCoarse(t, a, c, b, halves, i);
    FineInCoarse(t, a, c, b, halves, j);
    if ci < cj {
      assert Before((a + [c] + b)[ci], (a + [c] + b)[cj]);
    } else {
      assert (a + halves + b)[i] == halves[i - |a|] && (a + halves + b)[j] == halves[j - |a|];
      assert Before(halves[i - |a|], halves[j - |a|]);
    }
  }

  /** Replacing a part by its own partition keeps a partition of the table. */
  lemma RefinePart(t: Table, a: seq<Table>, c: Table, b: seq<Table>, halves: seq<Table>)
    requires TimePartition(t, a + [c] + b) && TimePartition(c, halves)
    ensures TimePartition(t, a + halves + b)
  {
    hide Flatten, Before;
    var coarse, fine := a + [c] + b, a + halves + b;
    RefinedRows(t, a, c, b, halves);
    forall i, j | 0 <= i < j < |fine| ensures Before(fine[i], fine[j]) { RefinedPair(t, a, c, b, halves, i, j); }
    forall i | 0 <= i < |fine| ensures fine[i] != [] {
      if i < |a| { assert fine[i] == coarse[i]; }
      else if i < |a| + |halves| { assert fine[i] == halves[i - |a|]; }
      else { assert fine[i] == coarse[i - |halves| + 1]; }
    }
  }

  function CoarseIndex(before: nat, halves: nat, i: nat): int {
    if i < before then i else if i < before + halves then before else i - halves + 1
  }

  lemma FineInCoarse(t: Table, a: seq<Table>, c: Table, b: seq<Table>, halves: seq<Table>, i: nat)
    requires TimePartition(c, halves) && i < |a + halves + b|
    ensures 0 <= CoarseIndex(|a|, |halves|, i) < |a + [c] + b|
    ensures forall x :: x in (a + halves + b)[i] ==> x in (a + [c] + b)[CoarseIndex(|a|, |halves|, i)]
  {
    if |a| <= i < |a| + |halves| {
      assert (a + halves + b)[i] == halves[i - |a|];
      forall x | x in halves[i - |a|] ensures x in c { PartRowInTable(c, halves, i - |a|, x); }
    }
  }

  /** Halving a table of at least two rows leaves it whole exactly when all its
      rows share one timestamp. */
  lemma HalvesAreOneExactlyForOneTimestamp(c: Table, parts: seq<Table>, cuts: seq<nat>)
    requires |c| > 1 && IsSplit(c, |c| / 2, parts, cuts) && TimePartition(c, parts)
    requires forall k :: 0 <= k < |parts| && |parts[k]| > |c| / 2 ==> OneTimestamp(parts[k])
    ensures |parts| == 1 <==> OneTimestamp(c)
  {
    if |parts| == 1 {
      assert Flatten(parts) == parts[0] + Flatten([]) == parts[0];
      SameSize(parts[0], c);
      forall i, j | 0 <= i < |c| && 0 <= j < |c| ensures c[i].start == c[j].start {
        TableRowInPart(c, parts[0], c[i]);
        TableRowInPart(c, parts[0], c[j]);
      }
    } else {
      SameSize(Flatten(parts), c);
      SeveralPartsSeveralTimestamps(c, parts);
    }
  }

  lemma SeveralPartsSeveralTimestamps(c: Table, parts: seq<Table>)
    requires |parts| > 1 && TimePartition(c, parts)
    ensures !OneTimestamp(c)
  {
    var x, y := parts[0][0], parts[1][0];
    assert Before(parts[0], parts[1]) && x.start < y.start;
    PartRowInTable(c, parts, 0, x);
    PartRowInTable(c, parts, 1, y);
    var i :| 0 <= i < |c| && c[i] == x;
    var j :| 0 <= j < |c| && c[j] == y;
  }

  lemma SameSize(a: Table, b: Table)
    requires multiset(a) == multiset(b)
    ensures |a| == |b|
  {
    assert |multiset(a)| == |a| && |multiset(b)| == |b|;
  }

  lemma TableRowInPart(c: Table, part: Table, x: Bar)
    requires multiset(part) == multiset(c) && x in c
    ensures x in part
  {
    assert x in multiset(c);
    assert x in multiset(part);
  }

  /** A part that is all of one timestamp and more than one row, yet too large. */
  ghost predicate Indivisible(t: Table, tooLarge: Table -> bool) {
    |t| > 1 && OneTimestamp(t) && tooLarge(t)
  }

  /** Parts of a table that each fit the size limit, or hold a single row. It
      refuses only when it meets one timestamp that alone exceeds the limit. */
  method CandidateTables(t: Table, targetRows: nat, tooLarge: Table -> bool) returns (r: Result<seq<Table>, Table>)
    requires targetRows >= 1
    ensures r.Ok? ==> TimePartition(t, r.value)
    ensures r.Ok? ==> forall k :: 0 <= k < |r.value| ==> |r.value[k]| == 1 || !tooLarge(r.value[k])
    ensures r.Err? ==> Indivisible(r.error, tooLarge)
    ensures r.Err? ==> forall x :: x in r.error <==> x in t && x.start == r.error[0].start
  {
    if t == [] {
      return Ok([]);
    }
    var queue, _ := SplitTableByTime(t, targetRows);
    var accepted: seq<Table> := [];
    assert accepted + queue == queue;
    MeasureIsNonNegative(queue);
    while queue != []
      invariant WorkState(t, tooLarge, accepted, queue)
      decreases Measure(queue)
    {
      var candidate, rest := queue[0], queue[1..];
      hide WorkState, Measure, IsSplit;
      RestIsPart(t, tooLarge, accepted, queue);
      if tooLarge(candidate) && |candidate| > 1 {
        var halves, cuts := SplitTableByTime(candidate, |candidate| / 2);
        HalvesAreOneExactlyForOneTimestamp(candidate, halves, cuts);
        if |halves| == 1 {
          assert (accepted + queue)[|accepted|] == candidate;
          PartOwnsItsTimestamp(t, accepted + queue, |accepted|);
          return Err(candidate);
        }
        Divide(t, tooLarge, accepted, queue, halves);
        queue := halves + rest;
      } else {
        Accept(t, tooLarge, accepted, queue);
        accepted := accepted + [candidate];
        queue := rest;
      }
    }
    assert accepted + queue == accepted;
    r := Ok(accepted);
  }

  /** Accepted parts followed by the queue always partition the table. */
  ghost predicate WorkState(t: Table, tooLarge: Table -> bool, accepted: seq<Table>, queue: seq<Table>) {
    && TimePartition(t, accepted + queue)
    && Measure(queue) >= |queue|
    && forall k :: 0 <= k < |accepted| ==> |accepted[k]| == 1 || !tooLarge(accepted[k])
  }

  lemma RestIsPart(t: Table, tooLarge: Table -> bool, accepted: seq<Table>, queue: seq<Table>)
    requires queue != [] && WorkState(t, tooLarge, accepted, queue)
    ensures TimePartition(t, accepted + queue)
    ensures queue[0] != [] && |queue| - 1 <= Measure(queue[1..]) < Measure(queue)
  {
    forall i | 0 <= i < |queue| ensures queue[i] != [] {
      assert (accepted + queue)[|accepted| + i] == queue[i];
    }
    MeasureIsNonNegative(queue[1..]);
  }

  lemma {:induction false} FlattenedRowHasPart(parts: seq<Table>, x: Bar) returns (i: nat)
    requires x in Flatten(parts)
    ensures i < |parts| && x in parts[i]
  {
    if x in parts[0] {
      i := 0;
    } else {
      var j := FlattenedRowHasPart(parts[1..], x);
      i := j + 1;
    }
  }

  /** A part of one timestamp holds every row of the table with that timestamp. */
  lemma PartOwnsItsTimestamp(t: Table, parts: seq<Table>, k: nat)
    requires TimePartition(t, parts) && k < |parts| && OneTimestamp(parts[k])
    ensures forall x :: x in parts[k] <==> x in t && x.start == parts[k][0].start
  {
    forall x ensures x in parts[k] <==> x in t && x.start == parts[k][0].start {
      if x in parts[k] {
        PartRowInTable(t, parts, k, x);
      } else if x in t {
        assert x in multiset(t);
        assert x in multiset(Flatten(parts));
        var i := FlattenedRowHasPart(parts, x);
        assert if i < k then Before(parts[i], parts[k]) else Before(parts[k], parts[i]);
      }
    }
  }

  lemma Accept(t: Table, tooLarge: Table -> bool, accepted: seq<Table>, queue: seq<Table>)
    requires queue != [] && WorkState(t, tooLarge, accepted, queue)
    requires !(tooLarge(queue[0]) && |queue[0]| > 1)
    ensures WorkState(t, tooLarge, accepted + [queue[0]], queue[1..])
  {
    RestIsPart(t, tooLarge, accepted, queue);
    assert accepted + queue == accepted + [queue[0]] + queue[1..];
  }

  lemma Divide(t: Table, tooLarge: Table -> bool, accepted: seq<Table>, queue: seq<Table>, halves: seq<Table>)
    requires queue != [] && WorkState(t, tooLarge, accepted, queue)
    requires TimePartition(queue[0], halves) && |halves| != 1
    ensures WorkState(t, tooLarge, accepted, halves + queue[1..])
    ensures Measure(halves + queue[1..]) < Measure(queue)
  {
    hide TimePartition, Measure;
    var candidate, rest := queue[0], queue[1..];
    RestIsPart(t, tooLarge, accepted, queue);
    assert accepted + queue == accepted + [candidate] + rest;
    RefinePart(t, accepted, candidate, rest, halves);
    assert accepted + halves + rest == accepted + (halves + rest);
    SplitShrinksQueue(candidate, halves, rest);
    assert [candidate] + rest == queue;
  }

  lemma SplitShrinksQueue(candidate: Table, halves: seq<Table>, rest: seq<Table>)
    requires candidate != [] && TimePartition(candidate, halves) && |halves| != 1
    requires Measure(rest) >= |rest|
    ensures |rest| + |halves| <= Measure(halves + rest) < Measure([candidate] + rest)
  {
    MeasureOfParts(halves);
    MeasureIsNonNegative(halves);
    MeasureJoin(halves, rest);
    SameSize(Flatten(halves), candidate);
    assert ([candidate] + rest)[1..] == rest;
  }
}
