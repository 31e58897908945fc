/** What one flush hands to the engine: the buffered groups in key order, one call per
    calendar year. */
module FlushPlan {
  import opened Common
  import opened Partitions
  import opened TextOrder
  import opened Ingest
  import opened IngestRuns

  datatype Group = Group(key: GroupKey, rows: seq<Row>)

  datatype YearCall = YearCall(year: nat, groups: seq<Group>)

  /** The engine's answer for one year: its manifest and the object keys that one owns. */
  datatype Publication = Publication(manifest: string, available: bool, incidents: nat, keys: seq<string>)

  datatype FlushStatus = NO_CHANGE | AVAILABLE | QUARANTINED

  datatype FlushResult = FlushResult(status: FlushStatus, rows: nat, manifests: seq<string>, incidents: nat, keys: seq<string>)

  predicate GroupLe(a: GroupKey, b: GroupKey) {
    a.window.start < b.window.start || (a.window.start == b.window.start &&
    (a.window.end < b.window.end || (a.window.end == b.window.end && TextLe(a.shard, b.shard))))
  }

  predicate SlotLe(a: SlotKey, b: SlotKey) {
    if a.instrument == b.instrument then a.start <= b.start else TextLe(a.instrument, b.instrument)
  }

  lemma KeyOrders()
    ensures TotalPreorder(GroupLe) && TotalPreorder(SlotLe)
  {
    forall a, b ensures GroupLe(a, b) || GroupLe(b, a) { TextTotal(a.shard, b.shard); }
    forall a, b, c | GroupLe(a, b) && GroupLe(b, c) ensures GroupLe(a, c) {
      if TextLe(a.shard, b.shard) && TextLe(b.shard, c.shard) { TextTransitive(a.shard, b.shard, c.shard); }
    }
    forall a, b ensures SlotLe(a, b) || SlotLe(b, a) { TextTotal(a.instrument, b.instrument); }
    forall a, b, c | SlotLe(a, b) && SlotLe(b, c) ensures SlotLe(a, c) {
      if a.instrument != b.instrument && b.instrument != c.instrument {
        TextTransitive(a.instrument, b.instrument, c.instrument);
        if a.instrument == c.instrument { TextAntisymmetric(a.instrument, b.instrument); }
      }
    }
  }

  function RowKey(row: Row): SlotKey {
    SlotKey(row.instrument, row.start)
  }

  /** The rows of one group in key order, each exactly once. */
  ghost predicate ListsRows(rows: seq<Row>, held: map<SlotKey, Row>) {
    && (forall i, j :: 0 <= i < j < |rows| ==> SlotLe(RowKey(rows[i]), RowKey(rows[j])) && RowKey(rows[i]) != RowKey(rows[j]))
    && (forall i :: 0 <= i < |rows| ==> RowKey(rows[i]) in held && held[RowKey(rows[i])] == rows[i])
    && (forall k :: k in held ==> exists i :: 0 <= i < |rows| && RowKey(rows[i]) == k)
  }

  /** The buffer's groups in key order, each exactly once, with all their rows. */
  ghost predicate ListsGroups(groups: seq<Group>, buffer: map<GroupKey, map<SlotKey, Row>>) {
    && (forall i, j :: 0 <= i < j < |groups| ==> GroupLe(groups[i].key, groups[j].key) && groups[i].key != groups[j].key)
    && (forall i :: 0 <= i < |groups| ==> groups[i].key in buffer && ListsRows(groups[i].rows, buffer[groups[i].key]))
    && (forall g :: g in buffer ==> exists i :: 0 <= i < |groups| && groups[i].key == g)
  }

  function YearOfGroup(g: Group): nat {
    if g.key.window.start >= 1 then YearOf(g.key.window.start) else 0
  }

  function InYear(groups: seq<Group>, year: nat): seq<Group> {
    if groups == [] then []
    else InYear(groups[..|groups| - 1], year) + (if YearOfGroup(groups[|groups| - 1]) == year then [groups[|groups| - 1]] else [])
  }

  /** Calls in year order, each with that year's groups in group order. */
  ghost predicate Begins(calls: seq<YearCall>, groups: seq<Group>) {
    && (forall i, j :: 0 <= i < j < |calls| ==> calls[i].year < calls[j].year)
    && (forall i :: 0 <= i < |calls| ==> calls[i].groups == InYear(groups, calls[i].year) != [])
  }

  /** One call for every year that has a group. */
  ghost predicate Plans(calls: seq<YearCall>, groups: seq<Group>) {
    && Begins(calls, groups)
    && (forall g :: g in groups ==> exists i :: 0 <= i < |calls| && calls[i].year == YearOfGroup(g))
  }

  lemma {:induction false} InYearMembers(groups: seq<Group>, year: nat)
    ensures forall g :: g in InYear(groups, year) <==> g in groups && YearOfGroup(g) == year
    ensures NoDuplicates(groups) ==> NoDuplicates(InYear(groups, year))
  {
    hide YearOfGroup;
    if groups != [] {
      var n := |groups| - 1;
      assert groups == groups[..n] + [groups[n]];
      InYearMembers(groups[..n], year);
      if NoDuplicates(groups) {
        assert forall i :: 0 <= i < n ==> groups[..n][i] == groups[i];
        assert groups[n] !in groups[..n];
      }
    }
  }

  function Total(groups: seq<Group>): nat {
    if groups == [] then 0 else Total(groups[..|groups| - 1]) + |groups[|groups| - 1].rows|
  }

  /** Where a row stands in what was handed to the engine. */
  datatype Place = Place(call: nat, group: nat, row: nat)

  ghost predicate EmittedAt(calls: seq<YearCall>, at: Place, row: Row) {
    && at.call < |calls| && at.group < |calls[at.call].groups|
    && at.row < |calls[at.call].groups[at.group].rows|
    && calls[at.call].groups[at.group].rows[at.row] == row
  }

  ghost predicate Emitted(calls: seq<YearCall>, row: Row) {
    exists at :: EmittedAt(calls, at, row)
  }

  lemma ListedGroupsDiffer(groups: seq<Group>, buffer: map<GroupKey, map<SlotKey, Row>>)
    requires ListsGroups(groups, buffer)
    ensures NoDuplicates(groups)
    ensures forall g, h :: g in groups && h in groups && g.key == h.key ==> g == h
  {
    hide ListsRows, GroupLe;
  }

  /** A flush hands every buffered bar to the engine exactly once, and nothing else. */
  lemma FlushEmitsEachBarOnce(c: Config, s: Ingestor, groups: seq<Group>, calls: seq<YearCall>)
    requires Filed(c, s) && RowsMatchKeys(c, s) && ListsGroups(groups, s.buffer) && Plans(calls, groups)
    ensures forall g, k :: g in s.buffer && k in s.buffer[g] ==> Emitted(calls, s.buffer[g][k])
    ensures forall a, b, row, other :: EmittedAt(calls, a, row) && EmittedAt(calls, b, other) && RowKey(row) == RowKey(other) ==> a == b
    ensures forall at, row :: EmittedAt(calls, at, row) ==> Buffers(s, row)
  {
    hide Filed, RowsMatchKeys, ListsGroups, Plans, EmittedAt;
    forall g, k | g in s.buffer && k in s.buffer[g] ensures Emitted(calls, s.buffer[g][k]) {
      EmittedSomewhere(groups, calls, s.buffer, g, k);
    }
    forall a, b, row, other | EmittedAt(calls, a, row) && EmittedAt(calls, b, other) && RowKey(row) == RowKey(other)
      ensures a == b
    {
      OnePlace(c, s, groups, calls, a, b, row, other);
    }
    forall at, row | EmittedAt(calls, at, row) ensures Buffers(s, row) {
      var _ := PlacedInGroup(c, s, groups, calls, at, row);
    }
  }

  ghost predicate Buffers(s: Ingestor, row: Row) {
    exists g :: g in s.buffer && RowKey(row) in s.buffer[g] && s.buffer[g][RowKey(row)] == row
  }

  lemma EmittedSomewhere(groups: seq<Group>, calls: seq<YearCall>, buffer: map<GroupKey, map<SlotKey, Row>>,
                         g: GroupKey, k: SlotKey)
    requires ListsGroups(groups, buffer) && Plans(calls, groups) && g in buffer && k in buffer[g]
    ensures Emitted(calls, buffer[g][k])
  {
    hide YearOfGroup, GroupLe, InYear, ListsRows, NoDuplicates;
    var i :| 0 <= i < |groups| && groups[i].key == g;
    assert groups[i] in groups;
    var n: nat :| n < |calls| && calls[n].year == YearOfGroup(groups[i]);
    InYearMembers(groups, calls[n].year);
    assert groups[i] in calls[n].groups;
    var m: nat :| m < |calls[n].groups| && calls[n].groups[m] == groups[i];
    assert ListsRows(groups[i].rows, buffer[g]);
    hide ListsGroups, Plans;
    var r := RowListed(groups[i].rows, buffer[g], k);
    assert EmittedAt(calls, Place(n, m, r), buffer[g][k]);
  }

  lemma RowListed(rows: seq<Row>, held: map<SlotKey, Row>, k: SlotKey) returns (r: nat)
    requires ListsRows(rows, held) && k in held
    ensures r < |rows| && rows[r] == held[k]
  {
    hide SlotLe;
    r :| r < |rows| && RowKey(rows[r]) == k;
  }

  lemma PlacedInGroup(c: Config, s: Ingestor, groups: seq<Group>, calls: seq<YearCall>, at: Place, row: Row)
    returns (group: Group)
    requires Filed(c, s) && ListsGroups(groups, s.buffer) && Plans(calls, groups) && EmittedAt(calls, at, row)
    ensures group == calls[at.call].groups[at.group] && group in groups && calls[at.call].year == YearOfGroup(group)
    ensures group.key in s.buffer && ListsRows(group.rows, s.buffer[group.key])
    ensures RowKey(row) in s.buffer[group.key] && s.buffer[group.key][RowKey(row)] == row
    ensures group.key == GroupOf(c, RowKey(row))
    ensures Buffers(s, row)
  {
    hide GroupOf, YearOfGroup, GroupLe, SlotLe, InYear, NoDuplicates;
    group := calls[at.call].groups[at.group];
    InYearMembers(groups, calls[at.call].year);
    assert group in InYear(groups, calls[at.call].year);
    assert ListsRows(group.rows, s.buffer[group.key]);
    assert group.rows[at.row] == row;
    assert Filed(c, s);
  }

  lemma SameKeySameRow(rows: seq<Row>, held: map<SlotKey, Row>, i: nat, j: nat)
    requires ListsRows(rows, held) && i < |rows| && j < |rows| && RowKey(rows[i]) == RowKey(rows[j])
    ensures i == j
  {
    hide SlotLe;
  }

  lemma SameYearSameCall(calls: seq<YearCall>, groups: seq<Group>, i: nat, j: nat)
    requires Plans(calls, groups) && NoDuplicates(groups) && i < |calls| && j < |calls| && calls[i].year == calls[j].year
    ensures i == j && NoDuplicates(calls[i].groups)
  {
    hide YearOfGroup, InYear;
    InYearMembers(groups, calls[i].year);
  }

  lemma OnePlace(c: Config, s: Ingestor, groups: seq<Group>, calls: seq<YearCall>, a: Place, b: Place, row: Row,
                 other: Row)
    requires Filed(c, s) && ListsGroups(groups, s.buffer) && Plans(calls, groups)
    requires EmittedAt(calls, a, row) && EmittedAt(calls, b, other) && RowKey(row) == RowKey(other)
    ensures a == b
  {
    hide Filed, ListsGroups, Plans, YearOfGroup, GroupOf, ListsRows, Buffers;
    var g := PlacedInGroup(c, s, groups, calls, a, row);
    var h := PlacedInGroup(c, s, groups, calls, b, other);
    ListedGroupsDiffer(groups, s.buffer);
    assert g == h;
    SameYearSameCall(calls, groups, a.call, b.call);
    assert a.group == b.group;
    SameKeySameRow(g.rows, s.buffer[g.key], a.row, b.row);
  }

  /** Nothing buffered, nothing handed over, and the other way round. */
  lemma NothingToPublish(groups: seq<Group>, calls: seq<YearCall>, buffer: map<GroupKey, map<SlotKey, Row>>)
    requires ListsGroups(groups, buffer) && Plans(calls, groups)
    ensures calls == [] <==> buffer == map[]
  {
    hide YearOfGroup, ListsRows;
    if buffer != map[] {
      var g :| g in buffer;
      var i :| 0 <= i < |groups| && groups[i].key == g;
      assert groups[i] in groups;
    }
    if calls != [] {
      var g := calls[0].groups[0];
      InYearMembers(groups, calls[0].year);
      assert g in InYear(groups, calls[0].year);
      assert g.key in buffer;
    }
  }

  // ---- building the plan ---------------------------------------------------------------------------

  method ListRows(held: map<SlotKey, Row>) returns (rows: seq<Row>)
    requires forall k :: k in held ==> RowKey(held[k]) == k
    ensures ListsRows(rows, held)
  {
    KeyOrders();
    var keys := SortKeys(held.Keys, SlotLe);
    hide SlotLe;
    rows := [];
    for i := 0 to |keys|
      invariant |rows| == i
      invariant forall j :: 0 <= j < i ==> rows[j] == held[keys[j]]
    {
      rows := rows + [held[keys[i]]];
    }
  }

  method ListGroups(buffer: map<GroupKey, map<SlotKey, Row>>) returns (groups: seq<Group>)
    requires forall g, k :: g in buffer && k in buffer[g] ==> RowKey(buffer[g][k]) == k
    ensures ListsGroups(groups, buffer)
  {
    KeyOrders();
    var keys := SortKeys(buffer.Keys, GroupLe);
    hide GroupLe, ListsRows;
    groups := [];
    for i := 0 to |keys|
      invariant |groups| == i
      invariant forall j :: 0 <= j < i ==> groups[j].key == keys[j] && ListsRows(groups[j].rows, buffer[keys[j]])
    {
      var rows := ListRows(buffer[keys[i]]);
      groups := groups + [Group(keys[i], rows)];
    }
  }

  ghost predicate ByYear(byYear: map<nat, seq<Group>>, groups: seq<Group>) {
    && (forall y :: y in byYear ==> byYear[y] == InYear(groups, y) != [])
    && (forall g :: g in groups ==> YearOfGroup(g) in byYear)
    && (forall y :: y !in byYear ==> InYear(groups, y) == [])
  }

  lemma GroupJoinsYear(byYear: map<nat, seq<Group>>, groups: seq<Group>, g: Group)
    requires ByYear(byYear, groups)
    ensures var y := YearOfGroup(g);
            ByYear(byYear[y := (if y in byYear then byYear[y] else []) + [g]], groups + [g])
  {
    hide YearOfGroup;
    assert (groups + [g])[..|groups|] == groups;
  }

  method GroupByYear(groups: seq<Group>) returns (byYear: map<nat, seq<Group>>)
    ensures ByYear(byYear, groups)
  {
    byYear := map[];
    hide YearOfGroup;
    assert groups[..0] == [];
    assert ByYear(byYear, groups[..0]);
    hide ByYear;
    for i := 0 to |groups|
      invariant ByYear(byYear, groups[..i])
    {
      var y := YearOfGroup(groups[i]);
      GroupJoinsYear(byYear, groups[..i], groups[i]);
      assert groups[..i] + [groups[i]] == groups[..i + 1];
      byYear := byYear[y := (if y in byYear then byYear[y] else []) + [groups[i]]];
    }
    assert groups[..|groups|] == groups;
  }

  method PlanYears(groups: seq<Group>) returns (plan: seq<YearCall>)
    ensures Plans(plan, groups)
  {
    hide YearOfGroup, InYear, ByYear;
    var byYear := GroupByYear(groups);
    var years := SortKeys(byYear.Keys, (a: nat, b: nat) => a <= b);
    plan := [];
    for i := 0 to |years|
      invariant |plan| == i
      invariant forall j :: 0 <= j < i ==> plan[j] == YearCall(years[j], byYear[years[j]])
    {
      plan := plan + [YearCall(years[i], byYear[years[i]])];
    }
    PlanIsComplete(groups, byYear, years, plan);
  }

  lemma PlanIsComplete(groups: seq<Group>, byYear: map<nat, seq<Group>>, years: seq<nat>, plan: seq<YearCall>)
    requires ByYear(byYear, groups) && NoDuplicates(years) && SortedBy((a: nat, b: nat) => a <= b, years)
    requires forall y :: y in years <==> y in byYear
    requires |plan| == |years| && forall i :: 0 <= i < |plan| ==> plan[i] == YearCall(years[i], byYear[years[i]])
    ensures Plans(plan, groups)
  {
    hide YearOfGroup, InYear;
    forall g | g in groups ensures exists i :: 0 <= i < |plan| && plan[i].year == YearOfGroup(g) {
      assert YearOfGroup(g) in years;
      var i :| 0 <= i < |years| && years[i] == YearOfGroup(g);
      assert plan[i].year == YearOfGroup(g);
    }
  }
}
