/** compact of market_pipeline_lib/engine.py: one coarse partition for the finer ones it
    covers, and exactly when that loses no bar. */
module Compaction {
  import opened Common
  import opened Partitions
  import opened SplitByTime
  import opened TextOrder
  import opened Catalog
  import opened Publishing
  import opened Engine

  // ---- bars of a manifest ------------------------------------------------------------------

  ghost predicate Owns(t: Tables, id: ManifestId, x: RelationId) {
    x in t.relations && t.relations[x].manifest == id
  }

  /** The manifest has an object holding the bar. */
  ghost predicate HasBar(t: Tables, id: ManifestId, b: Bar) {
    exists x :: Owns(t, id, x) && b in x.stored.content
  }

  /** The bar starts between the exchange midnights that bound the window. */
  predicate InWindow(k: Settings, b: Bar, w: Window) {
    k.midnight(w.start) <= b.start < k.midnight(w.end)
  }

  ghost predicate MidnightsInOrder(k: Settings) {
    forall d :: k.midnight(d) < k.midnight(d + 1)
  }

  lemma {:induction false} MidnightsIncrease(k: Settings, a: int, b: int)
    requires MidnightsInOrder(k) && a <= b
    ensures k.midnight(a) <= k.midnight(b)
    decreases b - a
  {
    if a < b { MidnightsIncrease(k, a, b - 1); assert k.midnight(b - 1) < k.midnight(b - 1 + 1); }
  }

  // ---- what is read ------------------------------------------------------------------------------

  function FilterPeriod(t: Table, lo: int, hi: int): Table {
    if t == [] then []
    else FilterPeriod(t[..|t| - 1], lo, hi) + (if lo <= t[|t| - 1].start < hi then [t[|t| - 1]] else [])
  }

  lemma {:induction false} FilterKeepsPeriod(t: Table, lo: int, hi: int)
    ensures forall b :: b in FilterPeriod(t, lo, hi) <==> b in t && lo <= b.start < hi
  {
    if t != [] {
      assert t == t[..|t| - 1] + [t[|t| - 1]];
      FilterKeepsPeriod(t[..|t| - 1], lo, hi);
    }
  }

  /** One shard's inputs cut to a slice and put together. */
  function Combined(k: Settings, inputs: seq<Staged>, shard: string, slice: Window): Table {
    if inputs == [] then []
    else
      var last := inputs[|inputs| - 1];
      Combined(k, inputs[..|inputs| - 1], shard, slice) +
      (if last.relation.shard == shard then FilterPeriod(last.storage.id.content, k.midnight(slice.start), k.midnight(slice.end)) else [])
  }

  ghost predicate InputBar(k: Settings, inputs: seq<Staged>, shard: string, w: Window, b: Bar) {
    exists i :: 0 <= i < |inputs| && inputs[i].relation.shard == shard && b in inputs[i].storage.id.content && InWindow(k, b, w)
  }

  lemma {:induction false} CombinedHolds(k: Settings, inputs: seq<Staged>, shard: string, slice: Window)
    ensures forall b :: b in Combined(k, inputs, shard, slice) <==> InputBar(k, inputs, shard, slice, b)
  {
    if inputs != [] {
      var n := |inputs| - 1;
      CombinedHolds(k, inputs[..n], shard, slice);
      FilterKeepsPeriod(inputs[n].storage.id.content, k.midnight(slice.start), k.midnight(slice.end));
      assert forall i :: 0 <= i < n ==> inputs[..n][i] == inputs[i];
      forall b ensures InputBar(k, inputs, shard, slice, b) <==>
        InputBar(k, inputs[..n], shard, slice, b) || (inputs[n].relation.shard == shard && b in inputs[n].storage.id.content && InWindow(k, b, slice)) {
        if InputBar(k, inputs[..n], shard, slice, b) {
          var i :| 0 <= i < n && inputs[..n][i].relation.shard == shard && b in inputs[..n][i].storage.id.content;
          assert inputs[i] == inputs[..n][i];
        }
        if InputBar(k, inputs, shard, slice, b) {
          var i :| 0 <= i < |inputs| && inputs[i].relation.shard == shard && b in inputs[i].storage.id.content;
          if i < n { assert inputs[..n][i] == inputs[i]; }
        }
      }
    }
  }

  /** Consecutive slices of a window. */
  ghost predicate Slices(slices: seq<Window>, start: int, end: int) {
    if slices == [] then start == end
    else
      var last := slices[|slices| - 1];
      last.start < last.end == end && Slices(slices[..|slices| - 1], start, last.start)
  }

  lemma {:induction false} SliceOfBar(k: Settings, slices: seq<Window>, start: int, end: int, b: Bar)
    requires Slices(slices, start, end) && MidnightsInOrder(k)
    ensures InWindow(k, b, Window(start, end)) <==> exists i :: 0 <= i < |slices| && InWindow(k, b, slices[i])
  {
    if slices != [] {
      var n := |slices| - 1;
      var cut := slices[n].start;
      SliceOfBar(k, slices[..n], start, cut, b);
      SlicesAscend(slices[..n], start, cut);
      MidnightsIncrease(k, start, cut);
      MidnightsIncrease(k, cut, end);
      if InWindow(k, b, Window(start, cut)) {
        var i :| 0 <= i < n && InWindow(k, b, slices[..n][i]);
        assert slices[i] == slices[..n][i];
      }
      if i :| 0 <= i < |slices| && InWindow(k, b, slices[i]) {
        if i < n { assert slices[..n][i] == slices[i]; }
      }
      if InWindow(k, b, Window(start, end)) && !InWindow(k, b, Window(start, cut)) { assert InWindow(k, b, slices[n]); }
    }
  }

  lemma {:induction false} SlicesAscend(slices: seq<Window>, start: int, end: int)
    requires Slices(slices, start, end)
    ensures start <= end
  {
    if slices != [] {
      var n := |slices| - 1;
      SlicesAscend(slices[..n], start, slices[n].start);
    }
  }

  // ---- what is published -----------------------------------------------------------------------------

  /** The groups hold exactly the inputs' bars inside the window. */
  ghost predicate GroupsHold(k: Settings, inputs: seq<Staged>, g: Granularity, w: Window, groups: seq<Group>) {
    && (forall x :: x in groups ==> x.granularity == g && x.window == w)
    && (forall x, b :: x in groups && b in x.rows ==> InputBar(k, inputs, x.shard, w, b))
    && (forall i, b :: 0 <= i < |inputs| && b in inputs[i].storage.id.content && InWindow(k, b, w) ==> InGroup(groups, b))
  }

  ghost predicate InGroup(groups: seq<Group>, b: Bar) {
    exists x :: x in groups && b in x.rows
  }

  /** The live objects finer than the target that touch its window. */
  ghost predicate IsInput(t: Tables, id: ManifestId, g: Granularity, w: Window, s: Staged) {
    OwnedRow(t, id, s) && Overlaps(s.relation.window, w) && Rank(s.relation.granularity) < Rank(g)
  }

  ghost predicate Inputs(t: Tables, id: ManifestId, g: Granularity, w: Window, inputs: seq<Staged>) {
    && (forall s :: s in inputs ==> IsInput(t, id, g, w, s))
    && (forall x :: Owns(t, id, x) && Overlaps(t.relations[x].window, w) && Rank(t.relations[x].granularity) < Rank(g) ==>
          exists i :: 0 <= i < |inputs| && inputs[i].relation.id == x)
  }

  /** A finished compaction of latest: groups over its inputs, published as one window. */
  ghost predicate IsCompaction(k: Settings, t: Tables, c: Contract, year: nat, latest: Manifest, g: Granularity,
                               w: Window,
                               inputs: seq<Staged>, groups: seq<Group>, p: Publication) {
    && Inputs(t, latest.id, g, w, inputs) && GroupsHold(k, inputs, g, w, groups)
    && IsPublication(k, t, c, year, groups, [w], p) && p.previous == Some(latest)
  }

  /** A bar that survives: in an object the window leaves alone, or in an input and inside
      the window. */
  ghost predicate Survives(k: Settings, t: Tables, id: ManifestId, g: Granularity, w: Window, b: Bar) {
    exists x :: Owns(t, id, x) && b in x.stored.content && Spared(k, t, g, w, x, b)
  }

  ghost predicate Spared(k: Settings, t: Tables, g: Granularity, w: Window, x: RelationId, b: Bar)
    requires x in t.relations
  {
    !Overlaps(t.relations[x].window, w) || (Rank(t.relations[x].granularity) < Rank(g) && InWindow(k, b, w))
  }

  lemma InRetained(t: Tables, latest: ManifestId, id: ManifestId, w: Window, retained: seq<Staged>, b: Bar)
    requires WellKeyed(t)
    requires forall s :: s in retained ==> CarriedFrom(t, latest, id, [w], s)
    requires forall x :: x in t.relations && t.relations[x].manifest == latest && !Replaced(t.relations[x].window, [w]) ==>
               exists i :: 0 <= i < |retained| && retained[i].relation.stored == t.relations[x].stored
    ensures InSome(retained, b) <==> exists x :: Owns(t, latest, x) && b in x.stored.content && !Overlaps(t.relations[x].window, w)
  {
    assert forall v :: Replaced(v, [w]) <==> Overlaps(v, w) by { assert [w][0] == w; }
    hide Replaced, Overlaps;
    if InSome(retained, b) {
      var i :| 0 <= i < |retained| && b in retained[i].storage.id.content;
      assert CarriedFrom(t, latest, id, [w], retained[i]);
      var prior :| OwnedRow(t, latest, prior) && !Replaced(prior.relation.window, [w]) && retained[i] == Carry(id, prior);
      assert Owns(t, latest, prior.relation.id) && prior.storage.id == prior.relation.id.stored;
    }
    if x :| Owns(t, latest, x) && b in x.stored.content && !Overlaps(t.relations[x].window, w) {
      var i :| 0 <= i < |retained| && retained[i].relation.stored == t.relations[x].stored;
      assert CarriedFrom(t, latest, id, [w], retained[i]);
      assert retained[i].storage.id == x.stored;
    }
  }

  lemma InAdded(k: Settings, t: Tables, c: Contract, year: nat, revision: int, id: ManifestId, latest: ManifestId,
                g: Granularity, w: Window,
                inputs: seq<Staged>, groups: seq<Group>, added: seq<Staged>, b: Bar)
    requires WellKeyed(t) && Wrote(c, year, revision, id, groups, added, false)
    requires Inputs(t, latest, g, w, inputs) && GroupsHold(k, inputs, g, w, groups)
    ensures InSome(added, b) <==>
            exists x :: Owns(t, latest, x) && b in x.stored.content && Overlaps(t.relations[x].window, w)
                     && Rank(t.relations[x].granularity) < Rank(g) && InWindow(k, b, w)
  {
    hide Overlaps, InWindow, Rank, DistinctKeys;
    if InSome(added, b) {
      var i :| 0 <= i < |added| && b in added[i].storage.id.content;
      assert FromSome(c, year, revision, id, groups, added[i]);
      var x :| x in groups && PartOf(c, year, revision, id, x, added[i]);
      assert b in x.rows && InputBar(k, inputs, x.shard, w, b);
      var j :| 0 <= j < |inputs| && b in inputs[j].storage.id.content && InWindow(k, b, w);
      assert IsInput(t, latest, g, w, inputs[j]);
      assert Owns(t, latest, inputs[j].relation.id) && inputs[j].storage.id == inputs[j].relation.id.stored;
    }
    if x :| Owns(t, latest, x) && b in x.stored.content && Overlaps(t.relations[x].window, w)
            && Rank(t.relations[x].granularity) < Rank(g) && InWindow(k, b, w) {
      var j :| 0 <= j < |inputs| && inputs[j].relation.id == x;
      assert IsInput(t, latest, g, w, inputs[j]);
      assert b in inputs[j].storage.id.content;
      assert InGroup(groups, b);
      var y :| y in groups && b in y.rows;
      assert WholeGroup(added, y);
    }
  }

  // ---- conservation -------------------------------------------------------------------------------

  lemma OwnedAreStaged(t: Tables, items: seq<Staged>, u: Tables, id: ManifestId, b: Bar)
    requires AllFor(items, id) && OwnedIds(u, id) == RelationIds(items) && WellKeyed(u)
    ensures HasBar(u, id, b) <==> InSome(items, b)
  {
    if HasBar(u, id, b) {
      var x :| Owns(u, id, x) && b in x.stored.content;
      assert x in OwnedIds(u, id);
      var i :| 0 <= i < |items| && items[i].relation.id == x;
      assert items[i].storage.id == x.stored;
    }
    if InSome(items, b) {
      var i :| 0 <= i < |items| && b in items[i].storage.id.content;
      assert items[i].relation.id in RelationIds(items);
      assert items[i].relation.id in OwnedIds(u, id);
      assert Owns(u, id, items[i].relation.id) && items[i].relation.id.stored == items[i].storage.id;
    }
  }

  lemma InEither(a: seq<Staged>, z: seq<Staged>, b: Bar)
    ensures InSome(a + z, b) <==> InSome(a, b) || InSome(z, b)
  {
    if i :| 0 <= i < |a + z| && b in (a + z)[i].storage.id.content {
      if i < |a| { assert a[i] == (a + z)[i]; } else { assert z[i - |a|] == (a + z)[i]; }
    }
    if i :| 0 <= i < |a| && b in a[i].storage.id.content { assert (a + z)[i] == a[i]; }
    if i :| 0 <= i < |z| && b in z[i].storage.id.content { assert (a + z)[|a| + i] == z[i]; }
  }

  /** After a compaction that came out AVAILABLE under a fresh id, the new manifest has
      exactly the surviving bars. */
  lemma CompactedBars(k: Settings, t: Tables, c: Contract, year: nat, latest: Manifest, g: Granularity, w: Window,
                      inputs: seq<Staged>, groups: seq<Group>, p: Publication, b: Bar)
    requires WellKeyed(t) && IsCompaction(k, t, c, year, latest, g, w, inputs, groups, p)
    requires p.manifest.status == AVAILABLE && OwnedIds(t, p.manifest.id) == {}
    ensures HasBar(Published(t, p), p.manifest.id, b) <==> Survives(k, t, latest.id, g, w, b)
  {
    var id := p.manifest.id;
    ObjectsAreOwn(k, t, c, year, groups, [w], p);
    ManifestOwnsItsObjects(k, t, c, year, groups, [w], p);
    PublishedManifests(k, t, c, year, groups, [w], p);
    PublishedBars(k, t, c, year, latest, g, w, inputs, groups, p, b);
    hide IsPublication, Published, WellKeyed, InSome, HasBar, Survives, AllFor;
    OwnedAreStaged(t, Objects(p), Published(t, p), id, b);
  }

  lemma PublishedBars(k: Settings, t: Tables, c: Contract, year: nat, latest: Manifest, g: Granularity, w: Window,
                      inputs: seq<Staged>, groups: seq<Group>, p: Publication, b: Bar)
    requires WellKeyed(t) && IsCompaction(k, t, c, year, latest, g, w, inputs, groups, p) && p.manifest.status == AVAILABLE
    ensures InSome(Objects(p), b) <==> Survives(k, t, latest.id, g, w, b)
  {
    hide WellKeyed, Wrote, Inputs, GroupsHold, InSome, CarriedFrom, NextRevision, IsLatest, Overlaps, InWindow, Rank,
      Replaced;
    assert Wrote(c, year, p.manifest.revision, p.manifest.id, groups, p.added, false);
    assert Retains(t, Some(latest), p.manifest.id, [w], p.retained);
    hide IsPublication;
    InEither(p.retained, p.added, b);
    InRetained(t, latest.id, p.manifest.id, w, p.retained, b);
    InAdded(k, t, c, year, p.manifest.revision, p.manifest.id, latest.id, g, w, inputs, groups, p.added, b);
    forall x | Owns(t, latest.id, x) && b in x.stored.content && Spared(k, t, g, w, x, b) && Overlaps(t.relations[x].window, w)
      ensures Rank(t.relations[x].granularity) < Rank(g) && InWindow(k, b, w)
    {
    }
  }

  /** Every live object that touches the window is finer than the target, and keeps all
      its bars inside the window. */
  ghost predicate FitsWindow(k: Settings, t: Tables, id: ManifestId, g: Granularity, w: Window) {
    forall x :: Owns(t, id, x) && Overlaps(t.relations[x].window, w) ==>
      Rank(t.relations[x].granularity) < Rank(g) && forall b :: b in x.stored.content ==> InWindow(k, b, w)
  }

  /** A live manifest's objects hold bars, and no bar twice. */
  ghost predicate BarsAreUnique(t: Tables, id: ManifestId) {
    && (forall x :: Owns(t, id, x) ==> x.stored.content != [])
    && (forall x, y, b :: Owns(t, id, x) && Owns(t, id, y) && b in x.stored.content && b in y.stored.content ==> x == y)
  }

  ghost predicate SameBars(t: Tables, a: ManifestId, u: Tables, z: ManifestId) {
    forall b :: HasBar(t, a, b) <==> HasBar(u, z, b)
  }

  /** The conserving half needs nothing of the bars themselves. */
  lemma FittingKeepsBars(k: Settings, t: Tables, c: Contract, year: nat, latest: Manifest, g: Granularity, w: Window,
                         inputs: seq<Staged>, groups: seq<Group>, p: Publication)
    requires WellKeyed(t) && IsCompaction(k, t, c, year, latest, g, w, inputs, groups, p)
    requires p.manifest.status == AVAILABLE && OwnedIds(t, p.manifest.id) == {} && FitsWindow(k, t, latest.id, g, w)
    ensures SameBars(t, latest.id, Published(t, p), p.manifest.id)
  {
    hide WellKeyed, IsCompaction, Published, Overlaps, InWindow, Rank;
    forall b ensures HasBar(t, latest.id, b) <==> HasBar(Published(t, p), p.manifest.id, b) {
      CompactedBars(k, t, c, year, latest, g, w, inputs, groups, p, b);
      if x :| Owns(t, latest.id, x) && b in x.stored.content { assert Spared(k, t, g, w, x, b); }
    }
  }

  /** Conservation. A compaction that comes out AVAILABLE keeps exactly the bars there
      were if and only if every object touching the window is finer than the target and
      has its bars inside the window. */
  lemma CompactionConservesBars(k: Settings, t: Tables, c: Contract, year: nat, latest: Manifest, g: Granularity,
                                w: Window,
                                inputs: seq<Staged>, groups: seq<Group>, p: Publication)
    requires WellKeyed(t) && IsCompaction(k, t, c, year, latest, g, w, inputs, groups, p)
    requires p.manifest.status == AVAILABLE && OwnedIds(t, p.manifest.id) == {} && BarsAreUnique(t, latest.id)
    ensures SameBars(t, latest.id, Published(t, p), p.manifest.id) <==> FitsWindow(k, t, latest.id, g, w)
  {
    hide WellKeyed, IsCompaction, Published, Overlaps, InWindow, Rank;
    forall b ensures HasBar(Published(t, p), p.manifest.id, b) <==> Survives(k, t, latest.id, g, w, b) {
      CompactedBars(k, t, c, year, latest, g, w, inputs, groups, p, b);
    }
    AllSurviveExactlyWhenFitting(k, t, latest.id, g, w);
  }

  lemma AllSurviveExactlyWhenFitting(k: Settings, t: Tables, id: ManifestId, g: Granularity, w: Window)
    requires BarsAreUnique(t, id)
    ensures (forall b :: HasBar(t, id, b) <==> Survives(k, t, id, g, w, b)) <==> FitsWindow(k, t, id, g, w)
  {
    hide Overlaps, InWindow, Rank;
    if forall b :: HasBar(t, id, b) <==> Survives(k, t, id, g, w, b) {
      forall x, b | Owns(t, id, x) && b in x.stored.content ensures Spared(k, t, g, w, x, b) {
        assert HasBar(t, id, b);
        var y :| Owns(t, id, y) && b in y.stored.content && Spared(k, t, g, w, y, b);
        assert x == y;
      }
      forall x | Owns(t, id, x) && Overlaps(t.relations[x].window, w)
        ensures Rank(t.relations[x].granularity) < Rank(g) && forall b :: b in x.stored.content ==> InWindow(k, b, w)
      {
        assert Spared(k, t, g, w, x, x.stored.content[0]);
      }
    }
    if FitsWindow(k, t, id, g, w) {
      forall b | HasBar(t, id, b) ensures Survives(k, t, id, g, w, b) {
        var x :| Owns(t, id, x) && b in x.stored.content;
        assert Spared(k, t, g, w, x, b);
      }
    }
  }

  /** Live objects the pipeline itself publishes: proper windows, weeks that stay in one
      month, bars inside their own partition, nothing coarser than the target touching
      its window. */
  ghost predicate PipelineObjects(k: Settings, t: Tables, id: ManifestId, g: Granularity, w: Window) {
    forall x :: Owns(t, id, x) ==>
      var r := t.relations[x];
      && IsWindow(r.granularity, r.window)
      && (r.granularity == WEEK ==> 1 <= r.window.start < r.window.end && !CrossesMonth(r.window))
      && (forall b :: b in x.stored.content ==> InWindow(k, b, r.window))
      && (Overlaps(r.window, w) ==> Rank(r.granularity) <= Rank(g))
  }

  /** The target partition does not exist yet. */
  ghost predicate NoTarget(t: Tables, id: ManifestId, g: Granularity, w: Window) {
    forall x :: Owns(t, id, x) ==> !(t.relations[x].granularity == g && t.relations[x].window == w)
  }

  lemma SameRankSameGranularity(a: Granularity, b: Granularity)
    ensures Rank(a) == Rank(b) <==> a == b
  {
  }

  /** For such objects windows nest, so the condition of conservation holds. */
  lemma PipelineObjectsFit(k: Settings, t: Tables, id: ManifestId, g: Granularity, w: Window)
    requires PipelineObjects(k, t, id, g, w) && NoTarget(t, id, g, w) && IsWindow(g, w) && MidnightsInOrder(k)
    ensures FitsWindow(k, t, id, g, w)
  {
    hide IsWindow, Rank, CrossesMonth, Overlaps;
    forall x | Owns(t, id, x) && Overlaps(t.relations[x].window, w)
      ensures Rank(t.relations[x].granularity) < Rank(g) && forall b :: b in x.stored.content ==> InWindow(k, b, w)
    {
      var r := t.relations[x];
      SameRankSameGranularity(r.granularity, g);
      if r.granularity == g {
        SameGranularityLaminar(g, r.window, w);
      } else {
        FinerWindowNests(r.granularity, r.window, g, w);
        MidnightsIncrease(k, w.start, r.window.start);
        MidnightsIncrease(k, r.window.end, w.end);
      }
    }
  }

  // ---- the operation ---------------------------------------------------------------------------------

  /** isSession: the exchange trades that day. reused: this compaction's run succeeded
      before. */
  datatype Request = Request(granularity: Granularity, period: Date, isSession: int -> bool, dryRun: bool, reused: bool, fault: nat)

  type Date = d: int | 1 <= d witness 1

  datatype Outcome =
    | DayIsNotCompacted
    | Skipped
    | NothingAvailable
    | TargetExists(latest: Manifest, count: nat)
    | Incomplete(missing: set<int>)
    | DryRun(latest: Manifest, count: nat)
    | RunReused
    | DuplicateBars
    | NotPublished(why: PublishError)
    | Finished(latest: Manifest, publication: Publication)

  method CutIntoSlices(g: Granularity, w: Window) returns (slices: seq<Window>)
    requires 1 <= w.start <= w.end
    ensures Slices(slices, w.start, w.end)
  {
    hide PartitionBounds;
    slices := [];
    var cursor := w.start;
    while cursor < w.end
      invariant w.start <= cursor <= w.end && Slices(slices, w.start, cursor)
    {
      var end := w.end;
      if g == YEAR {
        var month := PartitionBounds(cursor, MONTH);
        if month.end < end { end := month.end; }
      }
      ghost var before := slices;
      slices := slices + [Window(cursor, end)];
      assert slices[..|slices| - 1] == before;
      cursor := end;
    }
  }

  predicate HasDuplicates(t: Table) {
    exists i, j :: 0 <= i < j < |t| && t[i].instrument == t[j].instrument && t[i].start == t[j].start
  }

  /** Two bars of one instrument and start among one shard's rows of one slice. */
  ghost predicate TwiceInShard(k: Settings, inputs: seq<Staged>) {
    exists shard, slice :: HasDuplicates(SortBarTable(Combined(k, inputs, shard, slice)))
  }

  predicate IsTarget(g: Granularity, w: Window, s: Staged) {
    s.relation.granularity == g && s.relation.window == w
  }

  /** Expected sessions of the window no input's partition contains. */
  function MissingSessions(isSession: int -> bool, w: Window, inputs: seq<Staged>): set<int> {
    set d | w.start <= d < w.end && isSession(d) && !CoveredBy(d, inputs)
  }

  predicate CoveredBy(d: int, inputs: seq<Staged>) {
    exists i :: 0 <= i < |inputs| && inputs[i].relation.window.start <= d < inputs[i].relation.window.end
  }

  /** The groups so far hold the bars of the slices done for the shards done. */
  ghost predicate GroupsFrom(k: Settings, inputs: seq<Staged>, g: Granularity, w: Window, groups: seq<Group>) {
    && (forall x :: x in groups ==> x.granularity == g && x.window == w)
    && (forall x, b :: x in groups && b in x.rows ==> InputBar(k, inputs, x.shard, w, b))
  }

  ghost predicate ShardDone(k: Settings, inputs: seq<Staged>, slices: seq<Window>, n: int, shard: string,
                            groups: seq<Group>) {
    forall i, b :: 0 <= i < n && i < |slices| && InputBar(k, inputs, shard, slices[i], b) ==> InGroup(groups, b)
  }

  lemma MoreGroups(groups: seq<Group>, x: Group)
    ensures forall b :: InGroup(groups, b) || b in x.rows ==> InGroup(groups + [x], b)
  {
    forall b | InGroup(groups, b) || b in x.rows ensures InGroup(groups + [x], b) {
      if b in x.rows { assert x in groups + [x]; } else {
        var y :| y in groups && b in y.rows;
        assert y in groups + [x];
      }
    }
  }

  lemma ShardStaysDone(k: Settings, inputs: seq<Staged>, slices: seq<Window>, n: int, shard: string, groups: seq<Group>,
                       more: seq<Group>)
    requires ShardDone(k, inputs, slices, n, shard, groups) && forall b :: InGroup(groups, b) ==> InGroup(more, b)
    ensures ShardDone(k, inputs, slices, n, shard, more)
  {
    hide InputBar, InGroup;
  }

  lemma SliceWithin(k: Settings, slices: seq<Window>, w: Window, i: nat, inputs: seq<Staged>, shard: string, b: Bar)
    requires Slices(slices, w.start, w.end) && MidnightsInOrder(k) && i < |slices| && InputBar(k, inputs, shard, slices[i], b)
    ensures InputBar(k, inputs, shard, w, b)
  {
    hide Slices;
    SliceOfBar(k, slices, w.start, w.end, b);
    assert Window(w.start, w.end) == w;
  }

  /** One shard's slices: empty ones are passed over, a duplicate bar ends the run. */
  method GroupShard(k: Settings, inputs: seq<Staged>, g: Granularity, w: Window, slices: seq<Window>, shard: string,
                    before: seq<Group>)
    returns (groups: seq<Group>, duplicates: bool)
    requires Slices(slices, w.start, w.end) && MidnightsInOrder(k) && GroupsFrom(k, inputs, g, w, before)
    ensures GroupsFrom(k, inputs, g, w, groups) && forall b :: InGroup(before, b) ==> InGroup(groups, b)
    ensures !duplicates ==> ShardDone(k, inputs, slices, |slices|, shard, groups)
    ensures duplicates ==> TwiceInShard(k, inputs)
  {
    hide Slices, InputBar, InGroup, Combined, SortBarTable, MidnightsInOrder, HasDuplicates;
    groups, duplicates := before, false;
    var i := 0;
    while i < |slices| && !duplicates
      invariant 0 <= i <= |slices| && GroupsFrom(k, inputs, g, w, groups)
      invariant forall b :: InGroup(before, b) ==> InGroup(groups, b)
      invariant !duplicates ==> ShardDone(k, inputs, slices, i, shard, groups)
      invariant duplicates ==> TwiceInShard(k, inputs)
      decreases |slices| - i, !duplicates
    {
      var rows := Combined(k, inputs, shard, slices[i]);
      CombinedHolds(k, inputs, shard, slices[i]);
      if rows != [] {
        var sorted := SortBarTable(rows);
        SortedRowsAreTheRows(rows);
        if HasDuplicates(sorted) {
          duplicates := true;
        } else {
          var x := Group(g, w, shard, sorted);
          forall b | b in x.rows ensures InputBar(k, inputs, shard, w, b) { SliceWithin(k, slices, w, i, inputs, shard, b); }
          MoreGroups(groups, x);
          ShardStaysDone(k, inputs, slices, i, shard, groups, groups + [x]);
          groups := groups + [x];
        }
      }
      if !duplicates { i := i + 1; }
    }
  }

  method GroupInputs(k: Settings, inputs: seq<Staged>, g: Granularity, w: Window)
    returns (groups: seq<Group>, duplicates: bool)
    requires 1 <= w.start <= w.end && MidnightsInOrder(k)
    ensures !duplicates ==> GroupsHold(k, inputs, g, w, groups)
    ensures duplicates ==> TwiceInShard(k, inputs)
  {
    hide Slices, InputBar, InGroup, MidnightsInOrder, ShardDone, TextLe, TwiceInShard;
    var slices := CutIntoSlices(g, w);
    var shards := ShardsOf(inputs);
    groups, duplicates := [], false;
    var i := 0;
    while i < |shards| && !duplicates
      invariant 0 <= i <= |shards| && GroupsFrom(k, inputs, g, w, groups)
      invariant duplicates ==> TwiceInShard(k, inputs)
      invariant !duplicates ==> forall j :: 0 <= j < i ==> ShardDone(k, inputs, slices, |slices|, shards[j], groups)
      decreases |shards| - i, !duplicates
    {
      ghost var before := groups;
      groups, duplicates := GroupShard(k, inputs, g, w, slices, shards[i], groups);
      if !duplicates {
        forall j | 0 <= j < i ensures ShardDone(k, inputs, slices, |slices|, shards[j], groups) {
          ShardStaysDone(k, inputs, slices, |slices|, shards[j], before, groups);
        }
        i := i + 1;
      }
    }
    if !duplicates { AllShardsHold(k, inputs, g, w, slices, shards, groups); }
  }

  method ShardsOf(inputs: seq<Staged>) returns (shards: seq<string>)
    ensures forall i :: 0 <= i < |inputs| ==> inputs[i].relation.shard in shards
  {
    TextLeIsTotal();
    hide TextLe;
    shards := SortKeys(set i | 0 <= i < |inputs| :: inputs[i].relation.shard, TextLe);
  }

  lemma AllShardsHold(k: Settings, inputs: seq<Staged>, g: Granularity, w: Window, slices: seq<Window>,
                      shards: seq<string>, groups: seq<Group>)
    requires Slices(slices, w.start, w.end) && MidnightsInOrder(k) && GroupsFrom(k, inputs, g, w, groups)
    requires forall i :: 0 <= i < |inputs| ==> inputs[i].relation.shard in shards
    requires forall j :: 0 <= j < |shards| ==> ShardDone(k, inputs, slices, |slices|, shards[j], groups)
    ensures GroupsHold(k, inputs, g, w, groups)
  {
    hide Slices, InGroup, MidnightsInOrder;
    forall i, b | 0 <= i < |inputs| && b in inputs[i].storage.id.content && InWindow(k, b, w)
      ensures InGroup(groups, b)
    {
      SliceOfBar(k, slices, w.start, w.end, b);
      assert Window(w.start, w.end) == w;
      var n :| 0 <= n < |slices| && InWindow(k, b, slices[n]);
      var j :| 0 <= j < |shards| && shards[j] == inputs[i].relation.shard;
      assert InputBar(k, inputs, shards[j], slices[n], b);
      assert ShardDone(k, inputs, slices, |slices|, shards[j], groups);
    }
  }

  /** Members of the window: how many are the target already, and which are finer. */
  method Members(e: MarketPipelineEngine, id: ManifestId, g: Granularity, w: Window)
    returns (targets: nat, inputs: seq<Staged>)
    requires WellKeyed(e.catalog.tables)
    ensures targets == 0 ==> NoTarget(e.catalog.tables, id, g, w) || !Overlaps(w, w)
    ensures targets > 0 ==> !NoTarget(e.catalog.tables, id, g, w)
    ensures Inputs(e.catalog.tables, id, g, w, inputs)
  {
    hide WellKeyed, Overlaps, Rank;
    var rows := e.catalog.ObjectsForManifest(id);
    ghost var t := e.catalog.tables;
    targets, inputs := 0, [];
    for i := 0 to |rows|
      invariant targets == 0 ==> forall j :: 0 <= j < i ==> !(Overlaps(rows[j].relation.window, w) && IsTarget(g, w, rows[j]))
      invariant targets > 0 ==> exists j :: 0 <= j < i && IsTarget(g, w, rows[j])
      invariant forall s :: s in inputs ==> IsInput(t, id, g, w, s)
      invariant forall j :: 0 <= j < i && Overlaps(rows[j].relation.window, w) && Rank(rows[j].relation.granularity) < Rank(g) ==> rows[j] in inputs
    {
      if Overlaps(rows[i].relation.window, w) {
        if IsTarget(g, w, rows[i]) { targets := targets + 1; }
        if Rank(rows[i].relation.granularity) < Rank(g) {
          assert OwnedRow(t, id, rows[i]);
          inputs := inputs + [rows[i]];
        }
      }
    }
    MembersCover(t, id, g, w, rows, targets, inputs);
  }

  lemma MembersCover(t: Tables, id: ManifestId, g: Granularity, w: Window, rows: seq<Staged>, targets: nat,
                     inputs: seq<Staged>)
    requires Lists(t, id, rows)
    requires targets == 0 ==> forall j :: 0 <= j < |rows| ==> !(Overlaps(rows[j].relation.window, w) && IsTarget(g, w, rows[j]))
    requires targets > 0 ==> exists j :: 0 <= j < |rows| && IsTarget(g, w, rows[j])
    requires forall s :: s in inputs ==> IsInput(t, id, g, w, s)
    requires forall j :: 0 <= j < |rows| && Overlaps(rows[j].relation.window, w) && Rank(rows[j].relation.granularity) < Rank(g) ==> rows[j] in inputs
    ensures targets == 0 ==> NoTarget(t, id, g, w) || !Overlaps(w, w)
    ensures targets > 0 ==> !NoTarget(t, id, g, w)
    ensures Inputs(t, id, g, w, inputs)
  {
    hide Overlaps, Rank;
    forall x | Owns(t, id, x)
      ensures exists j :: 0 <= j < |rows| && rows[j].relation == t.relations[x] && rows[j].relation.id == x
    {
      var j :| 0 <= j < |rows| && rows[j].relation.id == x;
      assert OwnedRow(t, id, rows[j]);
    }
    if targets > 0 {
      var j :| 0 <= j < |rows| && IsTarget(g, w, rows[j]);
      assert OwnedRow(t, id, rows[j]) && Owns(t, id, rows[j].relation.id);
    }
  }

  /** No manifest of the catalog is for a single instrument, as publish_dataset leaves it. */
  ghost predicate WholeDatasets(t: Tables) {
    forall id :: id in t.manifests ==> t.manifests[id].instrument.None?
  }

  /** With one AVAILABLE manifest per key there is one latest manifest. */
  lemma LatestIsUnique(t: Tables, c: Contract, year: nat, a: Option<Manifest>, b: Option<Manifest>)
    requires SingleAvailable(t) && WellKeyed(t) && WholeDatasets(t) && IsLatest(t, c, year, a) && IsLatest(t, c, year, b)
    ensures a == b
  {
    hide UtcYear;
    if a.Some? {
      assert b.Some?;
      var key := AvailabilityKey(a.value);
      assert SingleUnder(t, key);
      assert AvailableUnder(t, key, a.value.id) && AvailableUnder(t, key, b.value.id);
    }
  }

  /** One run of compact. Only a finished one changes the catalog; its publication is of
      the finer objects' bars, and the target was not there before. */
  method Compact(e: MarketPipelineEngine, c: Contract, q: Request)
    returns (r: Outcome, ghost inputs: seq<Staged>, ghost groups: seq<Group>)
    requires e.catalog.Valid() && MidnightsInOrder(e.k) && forall t :: e.k.targetRows(t) >= 1
    modifies e.catalog
    ensures e.catalog.Valid() && e.catalog.snapshot == old(e.catalog.snapshot)
    ensures !r.Finished? ==> e.catalog.tables == old(e.catalog.tables)
    ensures r.DayIsNotCompacted? <==> q.granularity == DAY
    ensures r.Skipped? <==> q.granularity == WEEK && CrossesMonth(PartitionBounds(q.period, WEEK))
    ensures r.TargetExists? ==> r.count > 0 && !NoTarget(old(e.catalog.tables), r.latest.id, q.granularity, PartitionBounds(q.period, q.granularity))
    ensures r.NothingAvailable? ==> IsLatest(old(e.catalog.tables), c, YearOf(PartitionBounds(q.period, q.granularity).start), None)
    ensures r.DryRun? ==> q.dryRun && r.count == |inputs|
    ensures r.DryRun? || r.RunReused? || r.DuplicateBars? ==> MissingSessions(q.isSession, PartitionBounds(q.period, q.granularity), inputs) == {}
    ensures r.RunReused? ==> q.reused && !q.dryRun
    ensures r.DuplicateBars? ==> TwiceInShard(e.k, inputs)
    ensures r.Incomplete? ==> r.missing != {} && r.missing == MissingSessions(q.isSession, PartitionBounds(q.period, q.granularity), inputs)
    ensures r.Finished? ==> !q.dryRun && !q.reused && Compacts(e.k, old(e.catalog.tables), c, q, r.latest, inputs, groups, r.publication)
    ensures r.Finished? ==> e.catalog.tables == Published(old(e.catalog.tables), r.publication)
  {
    hide WellKeyed, SingleAvailable, GainsOnlyTouched, IsPublication, Overlaps, Rank, CrossesMonth, MidnightsInOrder,
      Published, TwiceInShard, MissingSessions;
    inputs, groups := [], [];
    var g := q.granularity;
    if g == DAY { return DayIsNotCompacted, [], []; }
    var w := PartitionBounds(q.period, g);
    hide PartitionBounds;
    if g == WEEK && CrossesMonth(w) { return Skipped, [], []; }
    CommittedIsKeyed(e.catalog);
    var found := e.catalog.LatestAvailable(c, YearOf(w.start));
    if found.None? { return NothingAvailable, [], []; }
    var latest := found.value;
    var targets, finer := Members(e, latest.id, g, w);
    if targets > 0 { return TargetExists(latest, targets), finer, []; }
    var missing := MissingSessions(q.isSession, w, finer);
    if missing != {} { return Incomplete(missing), finer, []; }
    if q.dryRun { return DryRun(latest, |finer|), finer, []; }
    if q.reused { return RunReused, finer, []; }
    var made, duplicates := GroupInputs(e.k, finer, g, w);
    if duplicates { return DuplicateBars, finer, made; }
    ghost var t := e.catalog.tables;
    ghost var committed := e.catalog.snapshot.None?;
    var published := e.PublishDataset(c, YearOf(w.start), made, [w], q.fault);
    if published.Err? { return NotPublished(published.error), finer, made; }
    r, inputs, groups := Finished(latest, published.value), finer, made;
    WindowTouchesItself(w);
  }

  lemma WindowTouchesItself(w: Window)
    requires w.start < w.end
    ensures Overlaps(w, w)
  {
  }

  /** What a finished compaction did. */
  ghost predicate Compacts(k: Settings, t: Tables, c: Contract, q: Request, latest: Manifest, inputs: seq<Staged>,
                           groups: seq<Group>, p: Publication) {
    var w := PartitionBounds(q.period, q.granularity);
    && IsLatest(t, c, YearOf(w.start), Some(latest))
    && Inputs(t, latest.id, q.granularity, w, inputs) && GroupsHold(k, inputs, q.granularity, w, groups)
    && IsPublication(k, t, c, YearOf(w.start), groups, [w], p)
    && NoTarget(t, latest.id, q.granularity, w) && MissingSessions(q.isSession, w, inputs) == {}
  }

  /** The whole story for the pipeline's own objects: a compaction that finishes AVAILABLE
      leaves exactly the bars there were, provided nothing coarser touches the window. */
  lemma PipelineCompactionConservesBars(k: Settings, t: Tables, c: Contract, q: Request, latest: Manifest,
                                        inputs: seq<Staged>, groups: seq<Group>, p: Publication)
    requires Committed(t) && WholeDatasets(t) && MidnightsInOrder(k)
    requires Compacts(k, t, c, q, latest, inputs, groups, p)
    requires p.manifest.status == AVAILABLE && OwnedIds(t, p.manifest.id) == {}
    requires PipelineObjects(k, t, latest.id, q.granularity, PartitionBounds(q.period, q.granularity))
    ensures SameBars(t, latest.id, Published(t, p), p.manifest.id)
  {
    var w := PartitionBounds(q.period, q.granularity);
    assert IsWindow(q.granularity, w);
    hide PartitionBounds, Published, Wrote, Retains, Inputs, GroupsHold, FitsWindow, PipelineObjects, SameBars,
      WellKeyed;
    LatestIsUnique(t, c, YearOf(w.start), p.previous, Some(latest));
    PipelineObjectsFit(k, t, latest.id, q.granularity, w);
    FittingKeepsBars(k, t, c, YearOf(w.start), latest, q.granularity, w, inputs, groups, p);
  }
}
