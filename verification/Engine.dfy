/** The publishing half of the engine as an object: loops over groups and parts, one unit
    of work on the catalog. */
module Engine {
  import opened Common
  import opened Partitions
  import opened SplitByTime
  import opened Catalog
  import opened Publishing

  datatype PublishError = RevisionBehind | OversizedTimestamp | WriteFailed

  type PartKey = (Granularity, int, string)

  function PartKeyOf(s: Staged): PartKey {
    (s.relation.granularity, s.relation.window.start, s.relation.shard)
  }

  ghost predicate CountersCover(counters: map<PartKey, nat>, added: seq<Staged>) {
    forall i :: 0 <= i < |added| ==> PartKeyOf(added[i]) in counters && added[i].relation.part <= counters[PartKeyOf(added[i])]
  }

  function MinStart(t: Table): int
    requires t != []
  {
    if |t| == 1 || t[0].start <= MinStart(t[1..]) then t[0].start else MinStart(t[1..])
  }

  lemma {:induction false} MinStartIsLeast(t: Table)
    requires t != []
    ensures forall b :: b in t ==> MinStart(t) <= b.start
    ensures exists b :: b in t && b.start == MinStart(t)
  {
    if |t| > 1 {
      MinStartIsLeast(t[1..]);
      assert t == [t[0]] + t[1..];
      if MinStart(t) == t[0].start { assert t[0] in t; }
    } else {
      assert t[0] in t;
    }
  }

  /** The rows of the part number'th object of a group. */
  function NewObject(k: Settings, c: Contract, year: nat, revision: int, id: ManifestId, g: Group, part: Table,
                     number: nat): Staged
    requires part != []
  {
    var stored := StorageId(part, ObjectKey(c, year, revision, g.granularity, g.window, g.shard, number));
    Staged(
      Storage(stored, MinStart(part), k.endOf(part)),
      Relation(RelationId(id, stored), id, stored, g.granularity, g.window, g.shard, number, MinStart(part), k.endOf(part)))
  }

  // ---- writing groups ----------------------------------------------------------------------

  /** All the bars of the first parts of a table. */
  ghost predicate PartsIn(parts: seq<Table>, n: int, added: seq<Staged>) {
    forall i :: 0 <= i < n && i < |parts| ==> forall b :: b in parts[i] ==> InSome(added, b)
  }

  lemma MoreObjects(added: seq<Staged>, s: Staged)
    ensures forall b :: InSome(added, b) ==> InSome(added + [s], b)
    ensures forall b :: b in s.storage.id.content ==> InSome(added + [s], b)
  {
    forall b | InSome(added, b) ensures InSome(added + [s], b) {
      var i :| 0 <= i < |added| && b in added[i].storage.id.content;
      assert (added + [s])[i] == added[i];
    }
    assert (added + [s])[|added|] == s;
  }

  lemma NewKeyIsNew(counters: map<PartKey, nat>, added: seq<Staged>, s: Staged)
    requires CountersCover(counters, added) && DistinctKeys(added)
    requires forall i :: 0 <= i < |added| ==> Stageable(added[i]) && KeyNames(added[i])
    requires KeyNames(s) && s.relation.part == (if PartKeyOf(s) in counters then counters[PartKeyOf(s)] else 0) + 1
    ensures DistinctKeys(added + [s])
    ensures CountersCover(counters[PartKeyOf(s) := s.relation.part], added + [s])
  {
  }

  /** The object key spells out the relation's partition, shard and part. */
  ghost predicate KeyNames(s: Staged) {
    && s.storage.id.key.granularity == s.relation.granularity && s.storage.id.key.window == s.relation.window
    && s.storage.id.key.shard == s.relation.shard && s.storage.id.key.part == s.relation.part
  }

  /** What WriteNewObjects has built up: objects of the groups, keyed apart. */
  ghost predicate Building(c: Contract, year: nat, revision: int, id: ManifestId, groups: seq<Group>,
                           added: seq<Staged>, counters: map<PartKey, nat>) {
    && (forall s :: s in added ==> FromSome(c, year, revision, id, groups, s))
    && DistinctKeys(added) && CountersCover(counters, added)
  }

  lemma FromSomeNames(c: Contract, year: nat, revision: int, id: ManifestId, groups: seq<Group>, s: Staged)
    requires FromSome(c, year, revision, id, groups, s)
    ensures Stageable(s) && KeyNames(s)
  {
  }

  lemma BuildOne(c: Contract, year: nat, revision: int, id: ManifestId, groups: seq<Group>, added: seq<Staged>,
                 counters: map<PartKey, nat>, s: Staged)
    requires Building(c, year, revision, id, groups, added, counters) && FromSome(c, year, revision, id, groups, s)
    requires s.relation.part == (if PartKeyOf(s) in counters then counters[PartKeyOf(s)] else 0) + 1
    ensures Building(c, year, revision, id, groups, added + [s], counters[PartKeyOf(s) := s.relation.part])
  {
    hide DistinctKeys, CountersCover;
    forall i | 0 <= i < |added| ensures Stageable(added[i]) && KeyNames(added[i]) {
      assert added[i] in added;
      FromSomeNames(c, year, revision, id, groups, added[i]);
    }
    FromSomeNames(c, year, revision, id, groups, s);
    hide FromSome, KeyNames, Stageable;
    NewKeyIsNew(counters, added, s);
  }

  lemma SkipNumber(c: Contract, year: nat, revision: int, id: ManifestId, groups: seq<Group>, added: seq<Staged>,
                   counters: map<PartKey, nat>, key: PartKey)
    requires Building(c, year, revision, id, groups, added, counters)
    ensures Building(c, year, revision, id, groups, added, counters[key := (if key in counters then counters[key] else 0) + 1])
  {
    hide FromSome, DistinctKeys;
  }

  class MarketPipelineEngine {
    const k: Settings
    const catalog: LocalCatalog

    constructor (k: Settings, catalog: LocalCatalog)
      ensures this.k == k && this.catalog == catalog
    {
      this.k, this.catalog := k, catalog;
    }

    /** The parts of one group, each stored under the next part number. A part that cannot
        be stored is an incident and leaves its number unused. */
    method WriteParts(c: Contract, year: nat, revision: int, id: ManifestId, ghost groups: seq<Group>, g: Group,
                      parts: seq<Table>, before: seq<Staged>, used: map<PartKey, nat>)
      returns (added: seq<Staged>, counters: map<PartKey, nat>, failed: bool)
      requires g in groups && Building(c, year, revision, id, groups, before, used)
      requires forall i :: 0 <= i < |parts| ==> parts[i] != [] && forall b :: b in parts[i] ==> b in g.rows
      ensures Building(c, year, revision, id, groups, added, counters) && before <= added
      ensures !failed ==> PartsIn(parts, |parts|, added)
    {
      hide Building, InSome;
      added, counters, failed := before, used, false;
      var key := (g.granularity, g.window.start, g.shard);
      for i := 0 to |parts|
        invariant Building(c, year, revision, id, groups, added, counters) && before <= added
        invariant !failed ==> PartsIn(parts, i, added)
      {
        var number := (if key in counters then counters[key] else 0) + 1;
        var s := NewObject(k, c, year, revision, id, g, parts[i], number);
        MinStartIsLeast(parts[i]);
        assert PartOf(c, year, revision, id, g, s);
        if k.stores(s.storage.id.key, parts[i]) {
          BuildOne(c, year, revision, id, groups, added, counters, s);
          MoreObjects(added, s);
          added := added + [s];
        } else {
          SkipNumber(c, year, revision, id, groups, added, counters, key);
          failed := true;
        }
        counters := counters[key := number];
      }
    }

    /** Every group in turn: one with an error finding is left out, the others are sorted,
        cut to size and stored. None is a timestamp too large to store. */
    method WriteNewObjects(c: Contract, year: nat, revision: int, id: ManifestId, groups: seq<Group>)
      returns (r: Option<seq<Staged>>, errors: bool)
      requires forall t :: k.targetRows(t) >= 1
      ensures r.Some? ==> Wrote(c, year, revision, id, groups, r.value, errors)
    {
      hide FromSome, WholeGroup, TimePartition, InSome;
      var added: seq<Staged>, counters: map<PartKey, nat> := [], map[];
      errors := false;
      NothingBuilt(c, year, revision, id, groups);
      hide Building;
      for i := 0 to |groups|
        invariant Building(c, year, revision, id, groups, added, counters)
        invariant !errors ==> forall j :: 0 <= j < i ==> WholeGroup(added, groups[j])
      {
        var g := groups[i];
        ghost var before := added;
        if k.hasErrors(g) {
          errors := true;
        } else {
          var sorted := SortBarTable(g.rows);
          SortedRowsAreTheRows(g.rows);
          if sorted != [] {
            var parts := CandidateTables(sorted, k.targetRows(sorted), k.tooLarge);
            if parts.Err? { return None, errors; }
            PartsAreRows(sorted, parts.value);
            var failed;
            added, counters, failed := WriteParts(c, year, revision, id, groups, g, parts.value, added, counters);
            if failed { errors := true; } else { PartsMakeGroup(g, parts.value, added); }
          } else {
            EmptyGroupIsWhole(g, added);
          }
        }
        if !errors { EarlierStayWhole(groups, i, before, added); }
      }
      BuiltIsWritten(c, year, revision, id, groups, added, counters, errors);
      r := Some(added);
    }

    /** The previous revision's objects outside the replaced windows, re-owned. */
    method CarryForward(previous: Option<Manifest>, id: ManifestId, replace: seq<Window>)
      returns (retained: seq<Staged>)
      requires WellKeyed(catalog.tables)
      ensures Retains(catalog.tables, previous, id, replace, retained)
    {
      retained := [];
      if previous.None? { return; }
      hide WellKeyed, Replaced, Overlaps;
      var rows := catalog.ObjectsForManifest(previous.value.id);
      for i := 0 to |rows|
        invariant forall s :: s in retained ==> CarriedFrom(catalog.tables, previous.value.id, id, replace, s)
        invariant forall j :: 0 <= j < i && !Replaced(rows[j].relation.window, replace) ==>
                    exists m :: 0 <= m < |retained| && retained[m].relation.stored == rows[j].relation.stored
      {
        if !Replaced(rows[i].relation.window, replace) {
          ghost var before := retained;
          retained := retained + [Carry(id, rows[i])];
          assert OwnedRow(catalog.tables, previous.value.id, rows[i]);
          assert CarriedFrom(catalog.tables, previous.value.id, id, replace, Carry(id, rows[i]));
          assert forall m :: 0 <= m < |before| ==> retained[m] == before[m];
          assert retained[|before|].relation.stored == rows[i].relation.stored;
        }
      }
      AllCarried(catalog.tables, previous.value.id, rows, replace, retained);
    }

    /** Publishes one revision. fault is the number of catalog writes after which the unit
        of work is hit by an exception; whatever goes wrong, the catalog is as it was. */
    method PublishDataset(c: Contract, year: nat, groups: seq<Group>, replace: seq<Window>, fault: nat)
      returns (r: Result<Publication, PublishError>)
      requires catalog.Valid() && year >= 1 && forall t :: k.targetRows(t) >= 1
      modifies catalog
      ensures catalog.Valid() && catalog.snapshot == old(catalog.snapshot)
      ensures r.Err? ==> catalog.tables == old(catalog.tables)
      ensures r.Ok? ==> IsPublication(k, old(catalog.tables), c, year, groups, replace, r.value)
      ensures r.Ok? ==> catalog.tables == Published(old(catalog.tables), r.value)
      ensures r.Ok? ==> Committed(catalog.tables)
    {
      hide WellKeyed, SingleAvailable, Retains, Wrote, IsLatest, GainsOnlyTouched, AllFor;
      ghost var t := catalog.tables;
      CommittedIsKeyed(catalog);
      var previous := catalog.LatestAvailable(c, year);
      var revision := NextRevision(k.revision, previous);
      if revision.None? { return Err(RevisionBehind); }
      var id := ManifestId(c, year, revision.value);
      var building := BuildingRow(k, c, id, previous);
      var added, errors := WriteNewObjects(c, year, revision.value, id, groups);
      if added.None? { return Err(OversizedTimestamp); }
      var retained := CarryForward(previous, id, replace);
      var p := Publication(building, FinalRow(building, retained + added.value, errors), retained, added.value,
        previous);
      if Objects(p) != [] { EarliestAndLatest(Objects(p)); }
      assert IsPublication(k, t, c, year, groups, replace, p);
      ObjectsAreOwn(k, t, c, year, groups, replace, p);
      PreviousIsKeyed(t, c, year, previous);
      hide IsPublication;
      var ok := Transact(p, fault);
      r := if ok then Ok(p) else Err(WriteFailed);
    }

    method Transact(p: Publication, fault: nat) returns (ok: bool)
      requires catalog.Valid() && AllFor(Objects(p), p.manifest.id)
      requires p.building.revision == p.building.id.revision && p.manifest.revision == p.manifest.id.revision
      requires p.previous.Some? ==> p.previous.value.revision == p.previous.value.id.revision
      modifies catalog
      ensures catalog.Valid() && catalog.snapshot == old(catalog.snapshot)
      ensures catalog.tables == if ok then Published(old(catalog.tables), p) else old(catalog.tables)
      ensures ok ==> Committed(catalog.tables)
    {
      hide WellKeyed, SingleAvailable, GainsOnlyTouched, Stage;
      ok := catalog.Begin();
      if !ok { return; }
      ghost var t := catalog.tables;
      var items := Objects(p);
      if fault == 0 { catalog.Abort(); return false; }
      catalog.PublishManifest(p.building);
      assert items[..0] == [];
      for i := 0 to |items|
        invariant catalog.Valid() && catalog.snapshot == Some(t)
        invariant catalog.tables == StageAll(PutManifest(t, p.building), items[..i])
      {
        if fault == i + 1 { catalog.Abort(); return false; }
        catalog.StageObject(items[i]);
        assert items[..i + 1][..i] == items[..i];
      }
      assert items[..|items|] == items;
      if fault == |items| + 1 { catalog.Abort(); return false; }
      catalog.PublishManifest(p.manifest);
      if p.manifest.status == AVAILABLE && p.previous.Some? {
        if fault == |items| + 2 { catalog.Abort(); return false; }
        catalog.PublishManifest(p.previous.value.(status := SUPERSEDED));
      }
      ok := catalog.Commit();
    }
  }

  function YearWindow(year: nat): Window
    requires year >= 1
  {
    Window(MonthStart(12 * (year - 1)), MonthStart(12 * year))
  }

  function BuildingRow(k: Settings, c: Contract, id: ManifestId, previous: Option<Manifest>): Manifest
    requires id.year >= 1
  {
    Manifest(id, c.feed, None, c.layer, c.resolution, id.revision, BUILDING,
             k.midnight(YearWindow(id.year).start), k.midnight(YearWindow(id.year).end),
             if previous.Some? then Some(previous.value.id) else None)
  }

  function Earliest(items: seq<Staged>): int
    requires items != []
  {
    var first := items[0].relation.periodStart;
    if |items| == 1 then first else if first <= Earliest(items[1..]) then first else Earliest(items[1..])
  }

  function LatestEnd(items: seq<Staged>): int
    requires items != []
  {
    var first := items[0].relation.periodEnd;
    if |items| == 1 then first else if first >= LatestEnd(items[1..]) then first else LatestEnd(items[1..])
  }

  lemma {:induction false} EarliestAndLatest(items: seq<Staged>)
    requires items != []
    ensures forall s :: s in items ==> Earliest(items) <= s.relation.periodStart && s.relation.periodEnd <= LatestEnd(items)
    ensures exists s :: s in items && s.relation.periodStart == Earliest(items)
    ensures exists s :: s in items && s.relation.periodEnd == LatestEnd(items)
  {
    assert items[0] in items;
    if |items| > 1 {
      EarliestAndLatest(items[1..]);
      assert items == [items[0]] + items[1..];
    }
  }

  /** AVAILABLE needs objects and no error; the period is the objects' own. */
  function FinalRow(building: Manifest, objects: seq<Staged>, errors: bool): Manifest {
    building.(
      status := if objects != [] && !errors then AVAILABLE else QUARANTINED,
      periodStart := if objects == [] then building.periodStart else Earliest(objects),
      periodEnd := if objects == [] then building.periodStart else LatestEnd(objects))
  }

  lemma CommittedIsKeyed(catalog: LocalCatalog)
    requires catalog.Valid()
    ensures WellKeyed(catalog.tables)
  {
  }

  lemma PreviousIsKeyed(t: Tables, c: Contract, year: nat, previous: Option<Manifest>)
    requires WellKeyed(t) && IsLatest(t, c, year, previous)
    ensures previous.Some? ==> previous.value.revision == previous.value.id.revision
  {
  }

  lemma AllCarried(t: Tables, previous: ManifestId, rows: seq<Staged>, replace: seq<Window>, retained: seq<Staged>)
    requires Lists(t, previous, rows)
    requires forall j :: 0 <= j < |rows| && !Replaced(rows[j].relation.window, replace) ==>
               exists m :: 0 <= m < |retained| && retained[m].relation.stored == rows[j].relation.stored
    ensures forall x :: x in t.relations && t.relations[x].manifest == previous && !Replaced(t.relations[x].window, replace) ==>
              exists m :: 0 <= m < |retained| && retained[m].relation.stored == t.relations[x].stored
  {
    hide Replaced;
    forall x | x in t.relations && t.relations[x].manifest == previous && !Replaced(t.relations[x].window, replace)
      ensures exists m :: 0 <= m < |retained| && retained[m].relation.stored == t.relations[x].stored
    {
      var j :| 0 <= j < |rows| && rows[j].relation.id == x;
      assert OwnedRow(t, previous, rows[j]);
    }
  }

  lemma NothingBuilt(c: Contract, year: nat, revision: int, id: ManifestId, groups: seq<Group>)
    ensures Building(c, year, revision, id, groups, [], map[])
  {
  }

  lemma BuiltIsWritten(c: Contract, year: nat, revision: int, id: ManifestId, groups: seq<Group>, added: seq<Staged>,
                       counters: map<PartKey, nat>, errors: bool)
    requires Building(c, year, revision, id, groups, added, counters)
    requires !errors ==> forall j :: 0 <= j < |groups| ==> WholeGroup(added, groups[j])
    ensures Wrote(c, year, revision, id, groups, added, errors)
  {
    hide FromSome, WholeGroup, DistinctKeys, CountersCover;
  }

  lemma SortedRowsAreTheRows(t: Table)
    ensures forall b :: b in SortBarTable(t) <==> b in t
    ensures SortBarTable(t) == [] <==> t == []
  {
    SortByCorrect(t, ByInstrument);
  }

  lemma EmptyGroupIsWhole(g: Group, added: seq<Staged>)
    requires g.rows == []
    ensures WholeGroup(added, g)
  {
  }

  lemma PartsAreRows(t: Table, parts: seq<Table>)
    requires TimePartition(t, parts)
    ensures forall i :: 0 <= i < |parts| ==> parts[i] != [] && forall b :: b in parts[i] ==> b in t
    ensures forall b :: b in t ==> exists i :: 0 <= i < |parts| && b in parts[i]
  {
    forall i | 0 <= i < |parts| ensures parts[i] != [] && forall b :: b in parts[i] ==> b in t {
      forall b | b in parts[i] ensures b in t { PartRowInTable(t, parts, i, b); }
    }
    forall b | b in t ensures exists i :: 0 <= i < |parts| && b in parts[i] {
      assert b in multiset(t);
      assert b in multiset(Flatten(parts));
      var i := FlattenedRowHasPart(parts, b);
    }
  }

  lemma PartsMakeGroup(g: Group, parts: seq<Table>, added: seq<Staged>)
    requires PartsIn(parts, |parts|, added)
    requires forall b :: b in g.rows ==> exists i :: 0 <= i < |parts| && b in parts[i]
    ensures WholeGroup(added, g)
  {
    hide InSome;
  }

  lemma EarlierStayWhole(groups: seq<Group>, n: nat, before: seq<Staged>, added: seq<Staged>)
    requires n <= |groups| && before <= added && forall j :: 0 <= j < n ==> WholeGroup(before, groups[j])
    ensures forall j :: 0 <= j < n ==> WholeGroup(added, groups[j])
  {
    forall j | 0 <= j < n ensures WholeGroup(added, groups[j]) {
      forall b | b in groups[j].rows ensures InSome(added, b) {
        assert InSome(before, b);
        var i :| 0 <= i < |before| && b in before[i].storage.id.content;
        assert added[i] == before[i];
      }
    }
  }
}
