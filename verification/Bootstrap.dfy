/** The exact, replayable catalog bootstrap of market_pipeline_lib/legacy_bootstrap.py. */
module Bootstrap {
  import opened Common
  import opened ParentFirst

  /** Parents precede children. */
  const TABLE_ORDER: seq<string> := [
    "market_data.providers", "market_data.feeds", "market_data.instruments", "market_data.instrument_symbols",
    "market_data.trading_sessions", "market_data.pipeline_runs", "storage.objects", "market_data.dataset_manifests",
    "market_data.dataset_objects", "market_data.dataset_lineage", "market_data.dataset_object_lineage",
    "market_data.quality_incidents", "market_data.stream_watermarks", "market_data.corporate_actions",
    "market_data.feature_definitions", "market_data.feature_materializations", "market_data.feature_snapshot_batches"]

  const TABLES: nat := 17
  const OBJECTS: nat := 6
  const MANIFESTS: nat := 7

  predicate SelfReferencing(t: nat)
    requires t < TABLES
  {
    TABLE_ORDER[t] == "market_data.dataset_manifests" || TABLE_ORDER[t] == "market_data.corporate_actions"
  }

  datatype BootstrapError = CountMismatch | UnverifiedObjects | Conflict | CycleDetected

  datatype Status = DryRun | AlreadyApplied | Applied

  datatype Report = Report(status: Status, insertedRows: nat)

  ghost predicate ValidSnapshot(tables: seq<seq<Row>>) {
    |tables| == TABLES && forall t :: 0 <= t < TABLES ==> UniqueIds(tables[t])
  }

  function Missing(source: seq<Row>, target: seq<Row>): (missing: seq<Row>)
    ensures forall r :: r in missing <==> r in source && r.id !in Ids(target)
    ensures |missing| <= |source|
  {
    if source == [] then []
    else if source[0].id in Ids(target) then Missing(source[1..], target)
    else [source[0]] + Missing(source[1..], target)
  }

  /** What may not happen to a target row: unknown to the source, or different. */
  predicate RowDiverges(source: seq<Row>, row: Row, extrasAllowed: bool) {
    if row.id in Ids(source) then row !in source else !extrasAllowed
  }

  ghost predicate Diverges(source: seq<Row>, target: seq<Row>, extrasAllowed: bool) {
    exists r :: r in target && RowDiverges(source, r, extrasAllowed)
  }

  lemma {:induction false} MissingIsUnique(source: seq<Row>, target: seq<Row>)
    requires UniqueIds(source)
    ensures UniqueIds(Missing(source, target))
  {
    if source != [] {
      MissingIsUnique(source[1..], target);
      var rest := Missing(source[1..], target);
      forall k | 0 <= k < |rest| ensures rest[k].id != source[0].id {
        assert rest[k] in rest;
        var j :| 0 <= j < |source| - 1 && source[1..][j] == rest[k];
      }
    }
  }

  method TableDiverges(source: seq<Row>, target: seq<Row>, extrasAllowed: bool) returns (diverges: bool)
    ensures diverges <==> Diverges(source, target, extrasAllowed)
  {
    var k := 0;
    while k < |target|
      invariant 0 <= k <= |target|
      invariant forall j :: 0 <= j < k ==> !RowDiverges(source, target[j], extrasAllowed)
    {
      if RowDiverges(source, target[k], extrasAllowed) {
        assert target[k] in target;
        return true;
      }
      k := k + 1;
    }
    diverges := false;
  }

  ghost predicate AnyDiverges(source: seq<seq<Row>>, target: seq<seq<Row>>, extras: set<nat>)
    requires |source| == |target| == TABLES
  {
    exists t: nat :: t < TABLES && Diverges(source[t], target[t], t in extras)
  }

  /** All missing rows table by table, unless some target row diverges. */
  method MissingRows(source: seq<seq<Row>>, target: seq<seq<Row>>, extras: set<nat>)
    returns (r: Result<seq<seq<Row>>, BootstrapError>)
    requires |source| == |target| == TABLES
    ensures r.Err? <==> AnyDiverges(source, target, extras)
    ensures r.Err? ==> r.error == Conflict
    ensures r.Ok? ==> |r.value| == TABLES && forall t :: 0 <= t < TABLES ==> r.value[t] == Missing(source[t], target[t])
  {
    var missing: seq<seq<Row>> := [];
    var t: nat := 0;
    while t < TABLES
      invariant t <= TABLES && |missing| == t
      invariant forall j: nat :: j < t ==> !Diverges(source[j], target[j], j in extras)
      invariant forall j :: 0 <= j < t ==> missing[j] == Missing(source[j], target[j])
    {
      var diverges := TableDiverges(source[t], target[t], t in extras);
      if diverges { return Err(Conflict); }
      missing := missing + [Missing(source[t], target[t])];
      t := t + 1;
    }
    r := Ok(missing);
  }

  /** The rows of one table in the order they are inserted. */
  ghost predicate IsInsertionOrder(t: nat, missing: seq<Row>, order: seq<Row>)
    requires t < TABLES
  {
    if SelfReferencing(t) then multiset(order) == multiset(missing) && ParentsComeFirst(order, Ids(missing))
    else order == missing
  }

  method InsertionRows(t: nat, missing: seq<Row>) returns (r: Result<seq<Row>, BootstrapError>)
    requires t < TABLES && UniqueIds(missing)
    ensures r.Ok? ==> IsInsertionOrder(t, missing, r.value)
    ensures r.Err? <==> SelfReferencing(t) && HasCycle(missing)
    ensures r.Err? ==> r.error == CycleDetected
  {
    if SelfReferencing(t) {
      var order := ParentFirstOrder(missing);
      r := if order.Err? then Err(CycleDetected) else Ok(order.value);
    } else {
      r := Ok(missing);
    }
  }

  class Catalog {
    var tables: seq<seq<Row>>

    ghost predicate Valid()
      reads this
    {
      ValidSnapshot(tables)
    }

    method AppendUnique(t: nat, row: Row)
      requires Valid() && t < TABLES
      modifies this
      ensures Valid()
      ensures tables == old(tables)[t := old(tables)[t] + (if row.id in Ids(old(tables)[t]) then [] else [row])]
    {
      if row.id !in Ids(tables[t]) {
        FreshRowKeepsUnique(tables[t], row);
        tables := tables[t := tables[t] + [row]];
      } else {
        assert tables[t] + [] == tables[t];
      }
    }
  }

  lemma FreshRowKeepsUnique(rows: seq<Row>, row: Row)
    requires UniqueIds(rows) && row.id !in Ids(rows)
    ensures UniqueIds(rows + [row])
  {
    forall k | 0 <= k < |rows| ensures rows[k].id != row.id {
      assert rows[k] in rows;
    }
  }

  /** Appends one table's rows; every one of them is new to it. */
  method InsertTable(target: Catalog, t: nat, rows: seq<Row>)
    requires target.Valid() && t < TABLES && UniqueIds(rows)
    requires forall r :: r in rows ==> r.id !in Ids(target.tables[t])
    modifies target
    ensures target.Valid()
    ensures target.tables == old(target.tables)[t := old(target.tables)[t] + rows]
  {
    ghost var before := target.tables[t];
    var k := 0;
    assert before + rows[..0] == before;
    while k < |rows|
      invariant 0 <= k <= |rows|
      invariant target.Valid()
      invariant target.tables == old(target.tables)[t := before + rows[..k]]
    {
      NextRowIsFresh(before, rows, k);
      target.AppendUnique(t, rows[k]);
      assert before + rows[..k] + [rows[k]] == before + rows[..k + 1];
      k := k + 1;
    }
    assert rows[..k] == rows;
  }

  lemma NextRowIsFresh(before: seq<Row>, rows: seq<Row>, k: nat)
    requires UniqueIds(rows) && k < |rows| && forall r :: r in rows ==> r.id !in Ids(before)
    ensures rows[k].id !in Ids(before + rows[..k])
  {
    assert rows[k] in rows;
    forall r | r in before + rows[..k] ensures r.id != rows[k].id {
      assert r in before || r in rows[..k];
    }
  }

  ghost predicate Replayed(t: nat, source: seq<Row>, before: seq<Row>, after: seq<Row>)
    requires t < TABLES
  {
    exists order :: IsInsertionOrder(t, Missing(source, before), order) && after == before + order
  }

  ghost predicate HasBadCycle(source: seq<seq<Row>>, target: seq<seq<Row>>)
    requires |source| == |target| == TABLES
  {
    exists t: nat :: t < TABLES && SelfReferencing(t) && HasCycle(Missing(source[t], target[t]))
  }

  ghost predicate NothingMissing(source: seq<seq<Row>>, target: seq<seq<Row>>)
    requires |source| == |target| == TABLES
  {
    forall t :: 0 <= t < TABLES ==> Missing(source[t], target[t]) == []
  }

  ghost predicate AdmissibleCounts(source: seq<seq<Row>>, verified: nat, expectedObjects: nat,
                                   expectedManifests: Option<nat>)
    requires |source| == TABLES
  {
    && |source[OBJECTS]| == expectedObjects == verified
    && (expectedManifests.Some? ==> |source[MANIFESTS]| == expectedManifests.value)
  }

  /** Replaying a table leaves nothing missing and nothing divergent. */
  lemma ReplayCompletes(t: nat, source: seq<Row>, before: seq<Row>, after: seq<Row>, extrasAllowed: bool)
    requires t < TABLES && UniqueIds(source)
    requires !Diverges(source, before, extrasAllowed) && Replayed(t, source, before, after)
    ensures Missing(source, after) == [] && !Diverges(source, after, extrasAllowed)
    ensures forall r :: r in source ==> r in after
    ensures !extrasAllowed ==> forall r :: r in after ==> r in source
  {
    var missing := Missing(source, before);
    var order :| IsInsertionOrder(t, missing, order) && after == before + order;
    SameRows(order, missing);
    forall r | r in source ensures r in after {
      if r.id in Ids(before) {
        var b :| b in before && b.id == r.id;
        assert !RowDiverges(source, b, extrasAllowed);
        assert b in source by { assert r.id in Ids(source); }
        SameIdSameRow(source, r, b);
      } else {
        assert r in missing;
      }
    }
    forall r | r in after ensures !RowDiverges(source, r, extrasAllowed) {
      if r in before {
        assert !RowDiverges(source, r, extrasAllowed);
      } else {
        assert r in source && r.id in Ids(source);
      }
    }
    NothingLeft(source, after);
  }

  lemma {:induction false} NothingLeft(source: seq<Row>, after: seq<Row>)
    requires forall r :: r in source ==> r in after
    ensures Missing(source, after) == []
  {
    if source != [] {
      assert source[0] in after;
      NothingLeft(source[1..], after);
    }
  }

  lemma SameIdSameRow(rows: seq<Row>, a: Row, b: Row)
    requires UniqueIds(rows) && a in rows && b in rows && a.id == b.id
    ensures a == b
  {
    var i :| 0 <= i < |rows| && rows[i] == a;
    var j :| 0 <= j < |rows| && rows[j] == b;
  }

  /** Audits the target and, when asked, appends exactly what it lacks. It refuses
      on a count mismatch, any divergence or a supersedes cycle, and then the target
      is untouched; otherwise a rerun finds nothing left to write. */
  method MaterializeLegacyCatalog(source: seq<seq<Row>>, target: Catalog, verified: nat, expectedObjects: nat,
                                  expectedManifests: Option<nat>, extras: set<nat>, execute: bool)
    returns (r: Result<Report, BootstrapError>)
    requires ValidSnapshot(source) && target.Valid()
    modifies target
    ensures target.Valid()
    ensures r.Ok? <==> AdmissibleCounts(source, verified, expectedObjects, expectedManifests)
                       && !AnyDiverges(source, old(target.tables), extras)
                       && (execute ==> !HasBadCycle(source, old(target.tables)))
    ensures r.Err? ==> target.tables == old(target.tables)
    ensures r.Ok? ==> (r.value.status == DryRun <==> !execute)
    ensures r.Ok? ==> (r.value.status == AlreadyApplied <==> execute && NothingMissing(source, old(target.tables)))
    ensures r.Ok? && r.value.status != Applied ==> target.tables == old(target.tables) && r.value.insertedRows == 0
    ensures r.Ok? && r.value.status == Applied ==>
              (forall t: nat :: t < TABLES ==> Replayed(t, source[t], old(target.tables)[t], target.tables[t]))
              && NothingMissing(source, target.tables) && !AnyDiverges(source, target.tables, extras)
              && RowCount(target.tables) == RowCount(old(target.tables)) + r.value.insertedRows && r.value.insertedRows > 0
  {
    hide Diverges, IsInsertionOrder, HasCycle, UniqueIds, RowCount;
    if |source[OBJECTS]| != expectedObjects { return Err(CountMismatch); }
    if expectedManifests.Some? && |source[MANIFESTS]| != expectedManifests.value { return Err(CountMismatch); }
    if verified != |source[OBJECTS]| { return Err(UnverifiedObjects); }
    var snapshot := target.tables;
    var planned := MissingRows(source, snapshot, extras);
    if planned.Err? { return Err(planned.error); }
    var missing := planned.value;
    if !execute { return Ok(Report(DryRun, 0)); }
    var total := RowTotal(missing);
    NoRowsNothingMissing(missing);
    if total == 0 {
      NothingHasNoCycle();
      return Ok(Report(AlreadyApplied, 0));
    }
    var t: nat := 0;
    while t < TABLES
      invariant t <= TABLES && target.Valid()
      invariant forall j: nat :: j < t ==> Replayed(j, source[j], snapshot[j], target.tables[j])
      invariant forall j: nat :: j < t && SelfReferencing(j) ==> !HasCycle(missing[j])
      invariant forall j :: t <= j < TABLES ==> target.tables[j] == snapshot[j]
    {
      MissingIsUnique(source[t], snapshot[t]);
      var order := InsertionRows(t, missing[t]);
      if order.Err? {
        target.tables := snapshot;
        return Err(order.error);
      }
      UniqueInsertion(t, missing[t], order.value);
      InsertTable(target, t, order.value);
      t := t + 1;
    }
    forall j: nat | j < TABLES
      ensures Missing(source[j], target.tables[j]) == [] && !Diverges(source[j], target.tables[j], j in extras)
    {
      ReplayCompletes(j, source[j], snapshot[j], target.tables[j], j in extras);
    }
    var remaining := MissingRows(source, target.tables, extras);
    // The closing audit of the transaction cannot fire.
    var left := RowTotal(remaining.value);
    NoRowsNothingMissing(remaining.value);
    GrowsByMissing(source, snapshot, target.tables, missing, TABLES);
    assert target.tables[..TABLES] == target.tables && snapshot[..TABLES] == snapshot && missing[..TABLES] == missing;
    if left != 0 { assert false; }
    r := Ok(Report(Applied, total));
  }

  lemma NothingHasNoCycle()
    ensures !HasCycle([])
  {
    assert forall a, b :: !Link([], a, b);
  }

  lemma UniqueInsertion(t: nat, missing: seq<Row>, order: seq<Row>)
    requires t < TABLES && UniqueIds(missing) && IsInsertionOrder(t, missing, order)
    ensures UniqueIds(order) && forall r :: r in order <==> r in missing
  {
    SameRows(order, missing);
    UniqueAfterReorder(missing, order);
  }

  function RowCount(tables: seq<seq<Row>>): nat {
    if tables == [] then 0 else RowCount(tables[..|tables| - 1]) + |tables[|tables| - 1]|
  }

  method RowTotal(missing: seq<seq<Row>>) returns (total: nat)
    ensures total == RowCount(missing)
  {
    total := 0;
    var t := 0;
    while t < |missing|
      invariant 0 <= t <= |missing|
      invariant total == RowCount(missing[..t])
    {
      assert missing[..t + 1][..t] == missing[..t];
      total := total + |missing[t]|;
      t := t + 1;
    }
    assert missing[..t] == missing;
  }

  lemma {:induction false} NoRowsNothingMissing(missing: seq<seq<Row>>)
    ensures RowCount(missing) == 0 <==> forall t :: 0 <= t < |missing| ==> missing[t] == []
  {
    if missing != [] {
      var n := |missing| - 1;
      NoRowsNothingMissing(missing[..n]);
      assert forall t :: 0 <= t < n ==> missing[..n][t] == missing[t];
    }
  }

  /** The target grows by exactly the rows it lacked. */
  lemma {:induction false} GrowsByMissing(source: seq<seq<Row>>, before: seq<seq<Row>>, after: seq<seq<Row>>,
                                          missing: seq<seq<Row>>, n: nat)
    requires n <= |source| == |before| == |after| == |missing| == TABLES
    requires forall t: nat :: t < n ==> Replayed(t, source[t], before[t], after[t]) && missing[t] == Missing(source[t], before[t])
    ensures RowCount(after[..n]) == RowCount(before[..n]) + RowCount(missing[..n])
  {
    hide Replayed, Missing;
    if n > 0 {
      GrowsByMissing(source, before, after, missing, n - 1);
      ReplayedLength(n - 1, source[n - 1], before[n - 1], after[n - 1]);
      assert after[..n][..n - 1] == after[..n - 1] && before[..n][..n - 1] == before[..n - 1] && missing[..n][..n - 1] == missing[..n - 1];
    }
  }

  lemma ReplayedLength(t: nat, source: seq<Row>, before: seq<Row>, after: seq<Row>)
    requires t < TABLES && Replayed(t, source, before, after)
    ensures |after| == |before| + |Missing(source, before)|
  {
    hide Missing;
    var order :| IsInsertionOrder(t, Missing(source, before), order) && after == before + order;
    assert multiset(order) == multiset(Missing(source, before));
    assert |multiset(order)| == |order|;
  }

  // ---- references during the insertion ---------------------------------------------

  ghost predicate Resolved(rows: seq<Row>, r: Row) {
    r.parent.Some? ==> r.parent.value in Ids(rows)
  }

  ghost predicate ReferencesResolve(rows: seq<Row>) {
    forall r :: r in rows ==> Resolved(rows, r)
  }

  /** Whatever prefix of a self-referencing table has been inserted, every
      supersedes pointer in the target already names a row of the target. */
  lemma PrefixesResolve(t: nat, source: seq<Row>, before: seq<Row>, order: seq<Row>, n: nat)
    requires t < TABLES && SelfReferencing(t) && UniqueIds(source)
    requires ReferencesResolve(source) && ReferencesResolve(before)
    requires IsInsertionOrder(t, Missing(source, before), order) && n <= |order|
    ensures ReferencesResolve(before + order[..n])
  {
    var missing := Missing(source, before);
    var now := before + order[..n];
    SameRows(order, missing);
    forall r | r in now ensures Resolved(now, r) {
      if r.parent.Some? {
        var p := r.parent.value;
        if r in before {
          assert Resolved(before, r);
          var parent :| parent in before && parent.id == p;
          assert parent in now;
        } else {
          var i :| 0 <= i < n && order[..n][i] == r;
          assert order[i] in order && Resolved(source, r);
          if p in Ids(before) {
            var parent :| parent in before && parent.id == p;
            assert parent in now;
          } else {
            var sourceRow :| sourceRow in source && sourceRow.id == p;
            assert sourceRow in missing && p in Ids(missing);
            assert FollowsParent(order, Ids(missing), i);
            var parent :| parent in order[..i] && parent.id == p;
            var j :| 0 <= j < i && order[..i][j] == parent;
            assert order[..n][j] == parent;
            assert parent in now;
          }
        }
      }
    }
  }
}
