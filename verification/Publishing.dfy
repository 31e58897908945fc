/** publish_dataset of market_pipeline_lib/engine.py: carry forward what is not replaced,
    write the new objects, flip the manifests in one unit of work. */
module Publishing {
  import opened Common
  import opened Partitions
  import opened SplitByTime
  import opened Catalog

  /** revision is the configured one; the functions stand for the quality checks, the size
      of an encoded table, the object store and the end of a table's period. */
  datatype Settings = Settings(
    revision: Option<int>, hasErrors: Group -> bool, targetRows: Table -> nat, tooLarge: Table -> bool,
    stores: (ObjectKey, Table) -> bool, endOf: Table -> int, midnight: int -> int)

  datatype Group = Group(granularity: Granularity, window: Window, shard: string, rows: Table)

  // ---- one publication -------------------------------------------------------------------

  datatype Publication = Publication(
    building: Manifest, manifest: Manifest, retained: seq<Staged>, added: seq<Staged>, previous: Option<Manifest>)

  function Objects(p: Publication): seq<Staged> {
    p.retained + p.added
  }

  /** The catalog after the unit of work. */
  function Published(t: Tables, p: Publication): Tables {
    var staged := StageAll(PutManifest(t, p.building), Objects(p));
    var done := PutManifest(staged, p.manifest);
    if p.manifest.status == AVAILABLE && p.previous.Some?
    then PutManifest(done, p.previous.value.(status := SUPERSEDED))
    else done
  }

  predicate Replaced(w: Window, replace: seq<Window>) {
    exists i :: 0 <= i < |replace| && Overlaps(w, replace[i])
  }

  function Carry(id: ManifestId, prior: Staged): Staged {
    Staged(prior.storage, prior.relation.(id := RelationId(id, prior.relation.stored), manifest := id))
  }

  /** Exactly the previous revision's objects outside the replaced windows, re-owned. */
  ghost predicate Retains(t: Tables, previous: Option<Manifest>, id: ManifestId, replace: seq<Window>,
                          retained: seq<Staged>) {
    && (previous.None? ==> retained == [])
    && (previous.Some? ==>
         && (forall s :: s in retained ==> CarriedFrom(t, previous.value.id, id, replace, s))
         && (forall x :: x in t.relations && t.relations[x].manifest == previous.value.id && !Replaced(t.relations[x].window, replace) ==>
               exists i :: 0 <= i < |retained| && retained[i].relation.stored == t.relations[x].stored))
  }

  ghost predicate CarriedFrom(t: Tables, previous: ManifestId, id: ManifestId, replace: seq<Window>, s: Staged) {
    exists prior :: OwnedRow(t, previous, prior) && !Replaced(prior.relation.window, replace) && s == Carry(id, prior)
  }

  /** The rows say when the object's bars begin. */
  ghost predicate Dated(s: Staged) {
    && s.relation.periodStart == s.storage.periodStart && s.relation.periodEnd == s.storage.periodEnd
    && (forall b :: b in s.storage.id.content ==> s.relation.periodStart <= b.start)
    && (exists b :: b in s.storage.id.content && b.start == s.relation.periodStart)
  }

  /** A new object: an own row for a part of one group. */
  ghost predicate PartOf(c: Contract, year: nat, revision: int, id: ManifestId, g: Group, s: Staged) {
    && Stageable(s) && s.relation.manifest == id && s.relation.part >= 1 && s.storage.id.content != [] && Dated(s)
    && s.relation.granularity == g.granularity && s.relation.window == g.window && s.relation.shard == g.shard
    && s.storage.id.key == ObjectKey(c, year, revision, g.granularity, g.window, g.shard, s.relation.part)
    && forall b :: b in s.storage.id.content ==> b in g.rows
  }

  ghost predicate InSome(items: seq<Staged>, b: Bar) {
    exists i :: 0 <= i < |items| && b in items[i].storage.id.content
  }

  ghost predicate FromSome(c: Contract, year: nat, revision: int, id: ManifestId, groups: seq<Group>, s: Staged) {
    exists g :: g in groups && PartOf(c, year, revision, id, g, s)
  }

  ghost predicate WholeGroup(items: seq<Staged>, g: Group) {
    forall b :: b in g.rows ==> InSome(items, b)
  }

  /** New objects come from the groups, under distinct keys; without an error incident
      every bar of every group is in one of them. */
  ghost predicate Wrote(c: Contract, year: nat, revision: int, id: ManifestId, groups: seq<Group>, added: seq<Staged>,
                        errors: bool) {
    && (forall s :: s in added ==> FromSome(c, year, revision, id, groups, s))
    && DistinctKeys(added)
    && (!errors ==> forall g :: g in groups ==> WholeGroup(added, g))
  }

  ghost predicate DistinctKeys(items: seq<Staged>) {
    forall i, j :: 0 <= i < j < |items| ==> items[i].storage.id.key != items[j].storage.id.key
  }

  function NextRevision(configured: Option<int>, previous: Option<Manifest>): Option<int> {
    if configured.Some? then (
      if previous.Some? && configured.value < previous.value.revision then None else configured)
    else Some(if previous.Some? then previous.value.revision + 1 else 1)
  }

  /** The period from the earliest start to the latest end of the objects; without objects
      the empty period at the year's start. */
  ghost predicate Observed(m: Manifest, building: Manifest, objects: seq<Staged>) {
    if objects == [] then m.periodStart == m.periodEnd == building.periodStart
    else
      && (forall s :: s in objects ==> m.periodStart <= s.relation.periodStart && s.relation.periodEnd <= m.periodEnd)
      && (exists s :: s in objects && s.relation.periodStart == m.periodStart)
      && (exists s :: s in objects && s.relation.periodEnd == m.periodEnd)
  }

  /** Both rows of the manifest are for the dataset as a whole. */
  ghost predicate ForDataset(c: Contract, p: Publication) {
    && p.building.feed == c.feed && p.building.layer == c.layer && p.building.resolution == c.resolution
    && p.building.instrument.None?
    && p.manifest == p.building.(status := p.manifest.status, periodStart := p.manifest.periodStart, periodEnd := p.manifest.periodEnd)
  }

  ghost predicate IsPublication(k: Settings, t: Tables, c: Contract, year: nat, groups: seq<Group>,
                                replace: seq<Window>, p: Publication) {
    && IsLatest(t, c, year, p.previous)
    && NextRevision(k.revision, p.previous) == Some(p.manifest.revision)
    && p.manifest.id == ManifestId(c, year, p.manifest.revision) == p.building.id
    && p.building.revision == p.manifest.revision && p.building.status == BUILDING
    && p.manifest.supersedes == p.building.supersedes == (if p.previous.Some? then Some(p.previous.value.id) else None)
    && ForDataset(c, p) && Observed(p.manifest, p.building, Objects(p))
    && Retains(t, p.previous, p.manifest.id, replace, p.retained)
    && (exists errors :: Wrote(c, year, p.manifest.revision, p.manifest.id, groups, p.added, errors) &&
          p.manifest.status == (if Objects(p) != [] && !errors then AVAILABLE else QUARANTINED))
  }

  // ---- what a publication does to the catalog ------------------------------------------------------

  function OwnedIds(t: Tables, id: ManifestId): set<RelationId> {
    set x | x in t.relations && t.relations[x].manifest == id
  }

  function RelationIds(items: seq<Staged>): set<RelationId> {
    set i | 0 <= i < |items| :: items[i].relation.id
  }

  ghost predicate AllFor(items: seq<Staged>, id: ManifestId) {
    forall i :: 0 <= i < |items| ==> Stageable(items[i]) && items[i].relation.manifest == id
  }

  /** u differs from t in no manifest row and in no other manifest's relation rows. */
  ghost predicate OnlyFor(t: Tables, u: Tables, id: ManifestId) {
    && u.manifests == t.manifests
    && (forall x: RelationId :: x.manifest != id ==> (x in u.relations <==> x in t.relations))
    && (forall x :: x in t.relations && x.manifest != id ==> x in u.relations && u.relations[x] == t.relations[x])
    && (forall s :: s in t.storage ==> s in u.storage)
  }

  lemma OnlyForTwice(t: Tables, u: Tables, v: Tables, id: ManifestId)
    requires OnlyFor(t, u, id) && OnlyFor(u, v, id)
    ensures OnlyFor(t, v, id)
  {
  }

  lemma NothingStaged(t: Tables, id: ManifestId)
    ensures StageAll(t, []) == t && OnlyFor(t, t, id) && RelationIds([]) == {}
  {
  }

  lemma {:induction false} StagingOwns(t: Tables, items: seq<Staged>, id: ManifestId)
    requires AllFor(items, id) && WellKeyed(t)
    ensures WellKeyed(StageAll(t, items)) && OnlyFor(t, StageAll(t, items), id)
    ensures OwnedIds(StageAll(t, items), id) == OwnedIds(t, id) + RelationIds(items)
  {
    hide WellKeyed, OnlyFor, Stage, OwnedIds;
    if items == [] {
      NothingStaged(t, id);
    } else {
      var n := |items| - 1;
      var u := StageAll(t, items[..n]);
      StagingOwns(t, items[..n], id);
      StageOne(u, items[n], id);
      OnlyForTwice(t, u, Stage(u, items[n]), id);
      assert RelationIds(items) == RelationIds(items[..n]) + {items[n].relation.id} by { assert items == items[..n] + [items[n]]; }
    }
  }

  lemma StageOne(t: Tables, s: Staged, id: ManifestId)
    requires WellKeyed(t) && Stageable(s) && s.relation.manifest == id
    ensures WellKeyed(Stage(t, s)) && OnlyFor(t, Stage(t, s), id)
    ensures OwnedIds(Stage(t, s), id) == OwnedIds(t, id) + {s.relation.id}
  {
  }

  lemma ObjectsAreOwn(k: Settings, t: Tables, c: Contract, year: nat, groups: seq<Group>, replace: seq<Window>,
                      p: Publication)
    requires WellKeyed(t) && IsPublication(k, t, c, year, groups, replace, p)
    ensures AllFor(Objects(p), p.manifest.id)
  {
    hide IsLatest, NextRevision, WholeGroup, Replaced;
    var id := p.manifest.id;
    forall i | 0 <= i < |Objects(p)| ensures Stageable(Objects(p)[i]) && Objects(p)[i].relation.manifest == id {
      if i < |p.retained| {
        assert Objects(p)[i] == p.retained[i] && p.retained[i] in p.retained;
        assert CarriedFrom(t, p.previous.value.id, id, replace, p.retained[i]);
      } else {
        assert Objects(p)[i] == p.added[i - |p.retained|] && p.added[i - |p.retained|] in p.added;
        assert FromSome(c, year, p.manifest.revision, id, groups, Objects(p)[i]);
      }
    }
  }

  /** Every object row belongs to a manifest row. */
  ghost predicate Referenced(t: Tables) {
    forall x :: x in t.relations ==> t.relations[x].manifest in t.manifests
  }

  /** The manifest owns the carried and the new objects, plus whatever an earlier attempt
      under the same id left behind; under an id the catalog has not seen, exactly them. */
  lemma ManifestOwnsItsObjects(k: Settings, t: Tables, c: Contract, year: nat, groups: seq<Group>, replace: seq<Window>,
                               p: Publication)
    requires WellKeyed(t) && IsPublication(k, t, c, year, groups, replace, p)
    ensures OwnedIds(Published(t, p), p.manifest.id) == OwnedIds(t, p.manifest.id) + RelationIds(Objects(p))
    ensures Referenced(t) ==> Referenced(Published(t, p))
    ensures Referenced(t) && p.manifest.id !in t.manifests ==>
              OwnedIds(Published(t, p), p.manifest.id) == RelationIds(Objects(p))
  {
    ObjectsAreOwn(k, t, c, year, groups, replace, p);
    hide IsPublication, StageAll;
    PutKeepsRelations(t, p);
    StagingOwns(PutManifest(t, p.building), Objects(p), p.manifest.id);
  }

  lemma PutKeepsRelations(t: Tables, p: Publication)
    requires WellKeyed(t) && p.building.id.revision == p.building.revision
    ensures var u := PutManifest(t, p.building);
            WellKeyed(u) && u.relations == t.relations && u.storage == t.storage && OwnedIds(u, p.manifest.id) == OwnedIds(t, p.manifest.id)
    ensures Published(t, p).relations == StageAll(PutManifest(t, p.building), Objects(p)).relations
    ensures Published(t, p).storage == StageAll(PutManifest(t, p.building), Objects(p)).storage
  {
    hide StageAll;
  }

  /** A publication leaves every other manifest's rows alone: the previous revision keeps
      its objects, and their bytes, whether the new one came out or not. */
  lemma OtherManifestsKeepTheirObjects(
    k: Settings, t: Tables, c: Contract, year: nat, groups: seq<Group>, replace: seq<Window>, p: Publication, other: ManifestId)
    requires WellKeyed(t) && IsPublication(k, t, c, year, groups, replace, p) && other != p.manifest.id
    ensures OwnedIds(Published(t, p), other) == OwnedIds(t, other)
    ensures forall x :: x in OwnedIds(t, other) ==>
              && Published(t, p).relations[x] == t.relations[x]
              && t.relations[x].stored in Published(t, p).storage
              && Published(t, p).storage[t.relations[x].stored].id == t.relations[x].stored
  {
    ObjectsAreOwn(k, t, c, year, groups, replace, p);
    hide IsPublication, StageAll;
    PutKeepsRelations(t, p);
    StagingOwns(PutManifest(t, p.building), Objects(p), p.manifest.id);
  }

  /** A quarantined publication leaves a manifest in service exactly when it does not
      reuse that manifest's id, whether or not it built on it. */
  lemma QuarantineKeepsInService(
    k: Settings, t: Tables, c: Contract, year: nat, groups: seq<Group>, replace: seq<Window>, p: Publication, id: ManifestId)
    requires WellKeyed(t) && IsPublication(k, t, c, year, groups, replace, p) && p.manifest.status == QUARANTINED
    requires id in t.manifests && t.manifests[id].status == AVAILABLE
    ensures id in Published(t, p).manifests
    ensures Published(t, p).manifests[id] == t.manifests[id] <==> p.manifest.id != id
  {
    PublishedManifests(k, t, c, year, groups, replace, p);
    hide IsPublication, Published;
  }

  /** The manifest rows a publication leaves behind. */
  lemma PublishedManifests(k: Settings, t: Tables, c: Contract, year: nat, groups: seq<Group>, replace: seq<Window>,
                           p: Publication)
    requires WellKeyed(t) && IsPublication(k, t, c, year, groups, replace, p)
    ensures WellKeyed(Published(t, p))
    ensures var row := t.manifests[p.manifest.id := p.manifest];
            Published(t, p).manifests ==
            if p.manifest.status == AVAILABLE && p.previous.Some?
            then row[p.previous.value.id := p.previous.value.(status := SUPERSEDED)] else row
  {
    ObjectsAreOwn(k, t, c, year, groups, replace, p);
    assert p.building.id == p.manifest.id by { hide Wrote, Retains, Observed, IsLatest, NextRevision; }
    assert p.previous.Some? ==> p.previous.value.id in t.manifests && t.manifests[p.previous.value.id] == p.previous.value
      by { hide Wrote, Retains, Observed, NextRevision, Matches; }
    assert p.previous.Some? ==> p.previous.value.revision == p.previous.value.id.revision by { hide IsPublication; }
    hide IsPublication, WellKeyed;
    RowsAfter(t, p);
  }

  lemma RowsAfter(t: Tables, p: Publication)
    requires WellKeyed(t) && AllFor(Objects(p), p.manifest.id) && p.building.id == p.manifest.id
    requires p.manifest.revision == p.building.revision == p.manifest.id.revision
    requires p.previous.Some? ==> p.previous.value.revision == p.previous.value.id.revision
    ensures WellKeyed(Published(t, p))
    ensures var row := t.manifests[p.manifest.id := p.manifest];
            Published(t, p).manifests ==
            if p.manifest.status == AVAILABLE && p.previous.Some?
            then row[p.previous.value.id := p.previous.value.(status := SUPERSEDED)] else row
  {
    hide StageAll, WellKeyed, AllFor, Objects;
    var id, building := p.manifest.id, PutManifest(t, p.building);
    PutIsKeyed(t, p.building);
    StagingOwns(building, Objects(p), id);
    var staged := StageAll(building, Objects(p));
    assert staged.manifests == building.manifests;
    PutIsKeyed(staged, p.manifest);
    var done := PutManifest(staged, p.manifest);
    assert done.manifests == t.manifests[id := p.manifest];
    if p.previous.Some? { PutIsKeyed(done, p.previous.value.(status := SUPERSEDED)); }
  }

  lemma PutIsKeyed(t: Tables, m: Manifest)
    requires WellKeyed(t) && m.revision == m.id.revision
    ensures WellKeyed(PutManifest(t, m))
  {
  }

  /** An AVAILABLE publication replaces the previous revision; when the configured revision
      repeats the latest one, the supersede overwrites the new manifest itself. */
  lemma AvailableSupersedesPrevious(k: Settings, t: Tables, c: Contract, year: nat, groups: seq<Group>,
                                    replace: seq<Window>, p: Publication)
    requires WellKeyed(t) && IsPublication(k, t, c, year, groups, replace, p) && p.manifest.status == AVAILABLE
    ensures var u, id := Published(t, p), p.manifest.id;
            && id in u.manifests
            && (u.manifests[id] == p.manifest <==> p.previous.None? || p.previous.value.id != id)
            && (p.previous.Some? ==> p.previous.value.id in u.manifests && u.manifests[p.previous.value.id].status == SUPERSEDED)
  {
    hide StageAll, Wrote, Retains, NextRevision;
  }

  /** Revisions count up along the supersede chain. */
  ghost predicate ChainIncreases(t: Tables) {
    forall id :: id in t.manifests && t.manifests[id].supersedes.Some? ==> t.manifests[id].supersedes.value.revision < t.manifests[id].revision
  }

  /** Automatic numbering never repeats the id it builds on. */
  lemma AutomaticRevisionsIncrease(k: Settings, t: Tables, c: Contract, year: nat, groups: seq<Group>,
                                   replace: seq<Window>, p: Publication)
    requires WellKeyed(t) && IsPublication(k, t, c, year, groups, replace, p) && k.revision.None?
    ensures p.previous.Some? ==> p.previous.value.id != p.manifest.id && p.manifest.revision == p.previous.value.revision + 1
    ensures ChainIncreases(t) ==> ChainIncreases(Published(t, p))
  {
    hide StageAll, Wrote, Retains, Observed, ChainIncreases, Published;
    ObjectsAreOwn(k, t, c, year, groups, replace, p);
    if ChainIncreases(t) { PublishedKeepsChain(t, p); }
  }

  lemma PublishedKeepsChain(t: Tables, p: Publication)
    requires WellKeyed(t) && AllFor(Objects(p), p.manifest.id) && ChainIncreases(t) && p.building.revision == p.building.id.revision
    requires p.building.supersedes == p.manifest.supersedes && p.building.revision == p.manifest.revision
    requires p.building.supersedes.Some? ==> p.building.supersedes.value.revision < p.building.revision
    requires p.previous.Some? ==> p.previous.value.id in t.manifests && t.manifests[p.previous.value.id] == p.previous.value
    ensures ChainIncreases(Published(t, p))
  {
    hide StageAll;
    PutKeepsRelations(t, p);
    StagingOwns(PutManifest(t, p.building), Objects(p), p.manifest.id);
  }

  // ---- the period of a publication ----------------------------------------------------------

  /** A bar handed in, or an object carried forward, starts there. */
  ghost predicate Starts(t: Tables, previous: Option<Manifest>, groups: seq<Group>, replace: seq<Window>, at: int) {
    || (exists g, b :: g in groups && b in g.rows && b.start == at)
    || (previous.Some? && exists x :: Kept(t, previous.value.id, replace, x) && t.relations[x].periodStart == at)
  }

  ghost predicate Kept(t: Tables, previous: ManifestId, replace: seq<Window>, x: RelationId) {
    x in t.relations && t.relations[x].manifest == previous && !Replaced(t.relations[x].window, replace)
  }

  ghost predicate IsEarliest(t: Tables, previous: Option<Manifest>, groups: seq<Group>, replace: seq<Window>, at: int) {
    && Starts(t, previous, groups, replace, at)
    && forall other :: Starts(t, previous, groups, replace, other) ==> at <= other
  }

  /** The earliest bar handed in or carried forward starts in the year published under. */
  ghost predicate BeginsInYear(t: Tables, previous: Option<Manifest>, groups: seq<Group>, replace: seq<Window>,
                               year: nat) {
    exists at :: IsEarliest(t, previous, groups, replace, at) && UtcYear(at) == year
  }

  /** An AVAILABLE manifest's period begins with the earliest bar handed in or carried. */
  lemma PeriodBeginsWithEarliest(k: Settings, t: Tables, c: Contract, year: nat, groups: seq<Group>,
                                 replace: seq<Window>, p: Publication)
    requires WellKeyed(t) && IsPublication(k, t, c, year, groups, replace, p) && p.manifest.status == AVAILABLE
    ensures IsEarliest(t, p.previous, groups, replace, p.manifest.periodStart)
    ensures UtcYear(p.manifest.periodStart) == year <==> BeginsInYear(t, p.previous, groups, replace, year)
  {
    var id, start := p.manifest.id, p.manifest.periodStart;
    hide NextRevision, IsLatest, ForDataset, UtcYear, Starts, Retains, Wrote;
    assert Wrote(c, year, p.manifest.revision, id, groups, p.added, false);
    assert Retains(t, p.previous, id, replace, p.retained);
    assert forall s :: s in p.retained + p.added ==> start <= s.relation.periodStart;
    var first :| first in p.retained + p.added && first.relation.periodStart == start;
    hide IsPublication;
    StartIsReached(t, p.previous, c, year, p.manifest.revision, id, groups, replace, p.retained, p.added, first);
    forall at | Starts(t, p.previous, groups, replace, at) ensures start <= at {
      StartIsLeast(t, p.previous, c, year, p.manifest.revision, id, groups, replace, p.retained, p.added, start, at);
    }
  }

  lemma StartIsReached(t: Tables, previous: Option<Manifest>, c: Contract, year: nat, revision: int, id: ManifestId,
                       groups: seq<Group>,
                       replace: seq<Window>, retained: seq<Staged>, added: seq<Staged>, first: Staged)
    requires WellKeyed(t) && Retains(t, previous, id, replace, retained) && Wrote(c, year, revision, id, groups, added, false)
    requires first in retained + added
    ensures Starts(t, previous, groups, replace, first.relation.periodStart)
  {
    hide WellKeyed, Starts, CarriedFrom, FromSome, WholeGroup, DistinctKeys, Replaced;
    if first in retained {
      CarriedStarts(t, previous, id, groups, replace, first);
    } else {
      AddedStarts(c, year, revision, id, t, previous, groups, replace, first);
    }
  }

  lemma StartIsLeast(t: Tables, previous: Option<Manifest>, c: Contract, year: nat, revision: int, id: ManifestId,
                     groups: seq<Group>,
                     replace: seq<Window>, retained: seq<Staged>, added: seq<Staged>, start: int, at: int)
    requires WellKeyed(t) && Retains(t, previous, id, replace, retained) && Wrote(c, year, revision, id, groups, added, false)
    requires forall s :: s in retained + added ==> start <= s.relation.periodStart
    requires Starts(t, previous, groups, replace, at)
    ensures start <= at
  {
    hide WellKeyed, Retains, Wrote, Replaced;
    if g, b :| g in groups && b in g.rows && b.start == at {
      GroupBarIsDated(c, year, revision, id, groups, added, g, b, start);
    } else {
      var x :| Kept(t, previous.value.id, replace, x) && t.relations[x].periodStart == at;
      CarriedIsDated(t, previous, id, replace, retained, x, start);
    }
  }

  lemma CarriedStarts(t: Tables, previous: Option<Manifest>, id: ManifestId, groups: seq<Group>, replace: seq<Window>,
                      s: Staged)
    requires WellKeyed(t) && previous.Some? && CarriedFrom(t, previous.value.id, id, replace, s)
    ensures Starts(t, previous, groups, replace, s.relation.periodStart)
  {
    hide Replaced;
    var prior :| OwnedRow(t, previous.value.id, prior) && !Replaced(prior.relation.window, replace) && s == Carry(id, prior);
    assert Kept(t, previous.value.id, replace, prior.relation.id);
  }

  lemma AddedStarts(c: Contract, year: nat, revision: int, id: ManifestId, t: Tables, previous: Option<Manifest>,
                    groups: seq<Group>, replace: seq<Window>, s: Staged)
    requires FromSome(c, year, revision, id, groups, s)
    ensures Starts(t, previous, groups, replace, s.relation.periodStart)
  {
    var g :| g in groups && PartOf(c, year, revision, id, g, s);
    var b :| b in s.storage.id.content && b.start == s.relation.periodStart;
    assert b in g.rows;
  }

  lemma GroupBarIsDated(c: Contract, year: nat, revision: int, id: ManifestId, groups: seq<Group>, added: seq<Staged>,
                        g: Group, b: Bar, start: int)
    requires Wrote(c, year, revision, id, groups, added, false) && g in groups && b in g.rows
    requires forall s :: s in added ==> start <= s.relation.periodStart
    ensures start <= b.start
  {
    hide DistinctKeys;
    assert WholeGroup(added, g);
    var i :| 0 <= i < |added| && b in added[i].storage.id.content;
    assert FromSome(c, year, revision, id, groups, added[i]);
  }

  lemma CarriedIsDated(t: Tables, previous: Option<Manifest>, id: ManifestId, replace: seq<Window>,
                       retained: seq<Staged>, x: RelationId, start: int)
    requires WellKeyed(t) && previous.Some? && Retains(t, previous, id, replace, retained) && Kept(t, previous.value.id, replace, x)
    requires forall s :: s in retained ==> start <= s.relation.periodStart
    ensures start <= t.relations[x].periodStart
  {
    hide Replaced;
    var i :| 0 <= i < |retained| && retained[i].relation.stored == t.relations[x].stored;
    assert CarriedFrom(t, previous.value.id, id, replace, retained[i]);
    var prior :| OwnedRow(t, previous.value.id, prior) && !Replaced(prior.relation.window, replace) && retained[i] == Carry(id, prior);
    assert prior.relation.id == x;
  }

  /** The next publication of the year builds on this one exactly when the earliest bar
      handed in or carried forward starts in that year. */
  lemma NextPublicationSeesThisOne(k: Settings, t: Tables, c: Contract, year: nat, groups: seq<Group>,
                                   replace: seq<Window>, p: Publication)
    requires WellKeyed(t) && IsPublication(k, t, c, year, groups, replace, p) && k.revision.None?
    requires p.manifest.status == AVAILABLE
    requires SingleAvailable(Published(t, p))
    requires forall id :: id in Published(t, p).manifests ==> Published(t, p).manifests[id].instrument.None?
    ensures IsLatest(Published(t, p), c, year, Some(p.manifest)) <==> BeginsInYear(t, p.previous, groups, replace, year)
  {
    AutomaticRevisionsIncrease(k, t, c, year, groups, replace, p);
    AvailableSupersedesPrevious(k, t, c, year, groups, replace, p);
    PeriodBeginsWithEarliest(k, t, c, year, groups, replace, p);
    hide IsPublication, Published, UtcYear, ChainIncreases, BeginsInYear, IsEarliest;
    var u := Published(t, p);
    if UtcYear(p.manifest.periodStart) == year {
      var key := AvailabilityKey(p.manifest);
      assert SingleUnder(u, key);
      forall id | id in u.manifests && Matches(c, year, u.manifests[id])
        ensures u.manifests[id].revision <= p.manifest.revision
      {
        assert AvailableUnder(u, key, id) && AvailableUnder(u, key, p.manifest.id);
      }
    }
  }
}
