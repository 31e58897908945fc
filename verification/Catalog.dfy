/** The local catalog of market_pipeline_lib/catalog.py: tables keyed by id, and a unit of
    work that commits together or puts everything back. */
module Catalog {
  import opened Common
  import opened Partitions
  import opened SplitByTime

  // ---- rows -----------------------------------------------------------------------------

  /** One logical dataset; its code spells out these three. */
  datatype Contract = Contract(feed: string, layer: string, resolution: string)

  /** Identifiers hash their parts; hashes are taken as injective. */
  datatype ManifestId = ManifestId(dataset: Contract, year: nat, revision: int)

  datatype ObjectKey = ObjectKey(
    dataset: Contract, year: nat, revision: int, granularity: Granularity, window: Window, shard: string, part: nat)

  datatype StorageId = StorageId(content: Table, key: ObjectKey)

  datatype RelationId = RelationId(manifest: ManifestId, stored: StorageId)

  datatype Status = BUILDING | AVAILABLE | QUARANTINED | SUPERSEDED

  datatype Manifest = Manifest(
    id: ManifestId, feed: string, instrument: Option<string>, layer: string, resolution: string,
    revision: int, status: Status, periodStart: int, periodEnd: int, supersedes: Option<ManifestId>)

  datatype Storage = Storage(id: StorageId, periodStart: int, periodEnd: int)

  datatype Relation = Relation(
    id: RelationId, manifest: ManifestId, stored: StorageId, granularity: Granularity, window: Window,
    shard: string, part: nat, periodStart: int, periodEnd: int)

  datatype Tables = Tables(
    manifests: map<ManifestId, Manifest>, storage: map<StorageId, Storage>, relations: map<RelationId, Relation>)

  /** An object staged for a manifest: its storage row and its relation row. */
  datatype Staged = Staged(storage: Storage, relation: Relation)

  // ---- availability --------------------------------------------------------------------------

  const SECONDS_PER_DAY := 86400

  /** Calendar year of an instant counted in seconds from day 0. */
  function UtcYear(t: int): nat {
    if t / SECONDS_PER_DAY >= 1 then YearOf(t / SECONDS_PER_DAY) else 0
  }

  datatype Key = Key(feed: string, instrument: Option<string>, layer: string, resolution: string, year: nat)

  function AvailabilityKey(m: Manifest): Key {
    Key(m.feed, m.instrument, m.layer, m.resolution, UtcYear(m.periodStart))
  }

  ghost predicate AvailableUnder(t: Tables, k: Key, id: ManifestId) {
    id in t.manifests && t.manifests[id].status == AVAILABLE && AvailabilityKey(t.manifests[id]) == k
  }

  ghost predicate SingleUnder(t: Tables, k: Key) {
    forall a, b :: AvailableUnder(t, k, a) && AvailableUnder(t, k, b) ==> a == b
  }

  /** At most one AVAILABLE manifest per availability key. */
  ghost predicate SingleAvailable(t: Tables) {
    forall k :: SingleUnder(t, k)
  }

  ghost predicate WellKeyed(t: Tables) {
    && (forall id :: id in t.manifests ==> t.manifests[id].id == id && t.manifests[id].revision == id.revision)
    && (forall id :: id in t.storage ==> t.storage[id].id == id)
    && (forall id :: id in t.relations ==>
          t.relations[id].id == id == RelationId(t.relations[id].manifest, t.relations[id].stored) &&
          t.relations[id].stored in t.storage)
  }

  /** What every committed state of the catalog satisfies. */
  ghost predicate Committed(t: Tables) {
    WellKeyed(t) && SingleAvailable(t)
  }

  /** Only touched keys can have gained an AVAILABLE manifest. */
  ghost predicate GainsOnlyTouched(before: Tables, now: Tables, touched: set<Key>) {
    forall k, id :: k !in touched && AvailableUnder(now, k, id) ==> AvailableUnder(before, k, id)
  }

  // ---- writes ------------------------------------------------------------------------------------

  function PutManifest(t: Tables, m: Manifest): Tables {
    t.(manifests := t.manifests[m.id := m])
  }

  function Stage(t: Tables, s: Staged): Tables {
    t.(storage := t.storage[s.storage.id := s.storage], relations := t.relations[s.relation.id := s.relation])
  }

  function StageAll(t: Tables, items: seq<Staged>): Tables {
    if items == [] then t else Stage(StageAll(t, items[..|items| - 1]), items[|items| - 1])
  }

  ghost predicate Stageable(s: Staged) {
    s.relation.id == RelationId(s.relation.manifest, s.storage.id) && s.relation.stored == s.storage.id
  }

  lemma PutTouches(before: Tables, now: Tables, touched: set<Key>, m: Manifest)
    requires GainsOnlyTouched(before, now, touched)
    ensures GainsOnlyTouched(before, PutManifest(now, m), touched + {AvailabilityKey(m)})
  {
    hide AvailabilityKey;
    var t := PutManifest(now, m);
    forall k, id | k !in touched + {AvailabilityKey(m)} && AvailableUnder(t, k, id)
      ensures AvailableUnder(before, k, id)
    {
      assert id != m.id;
      assert AvailableUnder(now, k, id);
    }
  }

  /** The check at commit covers the touched keys; the others cannot have changed. */
  lemma TouchedCheckSuffices(before: Tables, now: Tables, touched: set<Key>)
    requires SingleAvailable(before) && GainsOnlyTouched(before, now, touched)
    requires forall k :: k in touched ==> SingleUnder(now, k)
    ensures SingleAvailable(now)
  {
    forall k ensures SingleUnder(now, k) {
      if k !in touched {
        assert SingleUnder(before, k);
        hide AvailableUnder, SingleAvailable;
      }
    }
  }

  lemma AtMostOne<T>(s: set<T>)
    ensures |s| <= 1 <==> forall a, b :: a in s && b in s ==> a == b
  {
    if |s| > 1 {
      var a :| a in s;
      assert s == {a} + (s - {a});
      var b :| b in s - {a};
    } else if |s| == 1 {
      forall a, b | a in s && b in s ensures a == b {
        assert s == {a} + (s - {a});
      }
    }
  }

  // ---- the catalog ------------------------------------------------------------------------------------

  class LocalCatalog {
    var tables: Tables
    var snapshot: Option<Tables>
    var touched: set<Key>

    /** Committed between units of work; inside one, the way back is committed and the
        keys that may have gained a manifest are known. */
    ghost predicate Valid()
      reads this
    {
      && WellKeyed(tables)
      && (snapshot.None? ==> Committed(tables))
      && (snapshot.Some? ==> Committed(snapshot.value) && GainsOnlyTouched(snapshot.value, tables, touched))
    }

    constructor ()
      ensures Valid() && snapshot.None? && tables == Tables(map[], map[], map[])
    {
      tables, snapshot, touched := Tables(map[], map[], map[]), None, {};
    }

    /** Units of work do not nest. */
    method Begin() returns (ok: bool)
      requires Valid()
      modifies this
      ensures Valid() && tables == old(tables)
      ensures ok <==> old(snapshot).None?
      ensures snapshot == if ok then Some(old(tables)) else old(snapshot)
      ensures touched == if ok then {} else old(touched)
    {
      hide WellKeyed, SingleAvailable, AvailableUnder;
      ok := snapshot.None?;
      if ok { snapshot, touched := Some(tables), {}; }
    }

    /** Puts back the tables the unit of work began with. */
    method Abort()
      requires Valid() && snapshot.Some?
      modifies this
      ensures Valid() && snapshot.None? && tables == old(snapshot).value
    {
      hide WellKeyed, SingleAvailable, GainsOnlyTouched;
      tables, snapshot, touched := snapshot.value, None, {};
    }

    /** Keeps the unit of work when every key it touched has a single AVAILABLE manifest,
        and puts everything back otherwise. */
    method Commit() returns (ok: bool)
      requires Valid() && snapshot.Some?
      modifies this
      ensures Valid() && snapshot.None?
      ensures ok <==> forall k :: k in old(touched) ==> SingleUnder(old(tables), k)
      ensures tables == if ok then old(tables) else old(snapshot).value
    {
      hide WellKeyed, AvailableUnder;
      ok := SingleForTouched();
      if ok {
        TouchedCheckSuffices(snapshot.value, tables, touched);
        snapshot, touched := None, {};
      } else {
        Abort();
      }
    }

    method SingleForTouched() returns (ok: bool)
      ensures ok <==> forall k :: k in touched ==> SingleUnder(tables, k)
    {
      hide AvailabilityKey;
      var counts: map<Key, set<ManifestId>>, rest := map[], tables.manifests.Keys;
      while rest != {}
        invariant rest <= tables.manifests.Keys
        invariant forall k, id :: k in counts && id in counts[k] ==> AvailableUnder(tables, k, id)
        invariant forall k, id :: id !in rest && AvailableUnder(tables, k, id) ==> k in counts && id in counts[k]
        decreases |rest|
      {
        var id :| id in rest;
        var m := tables.manifests[id];
        if m.status == AVAILABLE {
          var k := AvailabilityKey(m);
          counts := counts[k := (if k in counts then counts[k] else {}) + {id}];
        }
        rest := rest - {id};
      }
      ok := forall k :: k in touched && k in counts ==> |counts[k]| <= 1;
      forall k | k in touched ensures SingleUnder(tables, k) <==> (k in counts ==> |counts[k]| <= 1) {
        if k in counts { AtMostOne(counts[k]); }
      }
    }

    /** Outside a unit of work nothing is touched, and nothing checks the row. */
    method PublishManifest(m: Manifest)
      requires Valid() && m.revision == m.id.revision
      modifies this
      ensures snapshot == old(snapshot) && tables == PutManifest(old(tables), m)
      ensures touched == if snapshot.Some? then old(touched) + {AvailabilityKey(m)} else old(touched)
      ensures Valid() <==> snapshot.Some? || SingleAvailable(tables)
    {
      hide AvailabilityKey, SingleAvailable;
      if snapshot.Some? {
        PutTouches(snapshot.value, tables, touched, m);
        touched := touched + {AvailabilityKey(m)};
      }
      tables := PutManifest(tables, m);
    }

    method StageObject(s: Staged)
      requires Valid() && Stageable(s)
      modifies this
      ensures Valid() && snapshot == old(snapshot) && touched == old(touched)
      ensures tables == Stage(old(tables), s)
    {
      hide AvailabilityKey;
      tables := Stage(tables, s);
      assert forall k, id :: AvailableUnder(tables, k, id) <==> AvailableUnder(old(tables), k, id);
      assert forall k :: SingleUnder(tables, k) <==> SingleUnder(old(tables), k);
    }

    /** The AVAILABLE manifest of a dataset's year with the highest revision. */
    method LatestAvailable(c: Contract, year: nat) returns (r: Option<Manifest>)
      requires WellKeyed(tables)
      ensures IsLatest(tables, c, year, r)
    {
      hide UtcYear;
      r := None;
      var rest := tables.manifests.Keys;
      while rest != {}
        invariant rest <= tables.manifests.Keys
        invariant r.Some? ==> r.value.id in tables.manifests && tables.manifests[r.value.id] == r.value && Matches(c, year, r.value)
        invariant forall id :: id in tables.manifests && id !in rest && Matches(c, year, tables.manifests[id]) ==>
                    r.Some? && tables.manifests[id].revision <= r.value.revision
        decreases |rest|
      {
        var id :| id in rest;
        var m := tables.manifests[id];
        if Matches(c, year, m) && (r.None? || m.revision > r.value.revision) { r := Some(m); }
        rest := rest - {id};
      }
    }

    /** The rows a manifest owns, in no particular order. */
    method ObjectsForManifest(id: ManifestId) returns (rows: seq<Staged>)
      requires WellKeyed(tables)
      ensures Lists(tables, id, rows)
    {
      rows := [];
      var rest := tables.relations.Keys;
      while rest != {}
        invariant rest <= tables.relations.Keys
        invariant forall i :: 0 <= i < |rows| ==> rows[i].relation.id !in rest && OwnedRow(tables, id, rows[i])
        invariant forall i, j :: 0 <= i < j < |rows| ==> rows[i].relation.id != rows[j].relation.id
        invariant forall x :: x in tables.relations && x !in rest && tables.relations[x].manifest == id ==>
                    exists i :: 0 <= i < |rows| && rows[i].relation.id == x
        decreases |rest|
      {
        var x :| x in rest;
        var relation := tables.relations[x];
        if relation.manifest == id {
          var row := Staged(tables.storage[relation.stored], relation);
          ghost var before := rows;
          rows := rows + [row];
          assert forall i :: 0 <= i < |before| ==> rows[i] == before[i];
          assert rows[|before|] == row;
        }
        rest := rest - {x};
      }
    }
  }

  predicate Matches(c: Contract, year: nat, m: Manifest) {
    m.feed == c.feed && m.layer == c.layer && m.resolution == c.resolution && m.status == AVAILABLE && UtcYear(m.periodStart) == year
  }

  ghost predicate IsLatest(t: Tables, c: Contract, year: nat, r: Option<Manifest>) {
    && (r.Some? ==> r.value.id in t.manifests && t.manifests[r.value.id] == r.value && Matches(c, year, r.value))
    && (forall id :: id in t.manifests && Matches(c, year, t.manifests[id]) ==>
          r.Some? && t.manifests[id].revision <= r.value.revision)
  }

  ghost predicate OwnedRow(t: Tables, id: ManifestId, row: Staged) {
    && row.relation.id in t.relations && t.relations[row.relation.id] == row.relation && row.relation.manifest == id
    && row.relation.stored in t.storage && row.storage == t.storage[row.relation.stored]
  }

  /** Every row of the manifest exactly once. */
  ghost predicate Lists(t: Tables, id: ManifestId, rows: seq<Staged>) {
    && (forall i :: 0 <= i < |rows| ==> OwnedRow(t, id, rows[i]))
    && (forall i, j :: 0 <= i < j < |rows| ==> rows[i].relation.id != rows[j].relation.id)
    && (forall x :: x in t.relations && t.relations[x].manifest == id ==> exists i :: 0 <= i < |rows| && rows[i].relation.id == x)
  }
}
