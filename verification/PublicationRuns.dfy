/** Runs of publications with automatic revisions on one catalog that starts empty, as
    publish_dataset and _next_revision of market_pipeline_lib/engine.py make them. */
module PublicationRuns {
  import opened Common
  import opened Partitions
  import opened SplitByTime
  import opened Catalog
  import opened Publishing

  /** One committed publication and what it was asked for. */
  datatype Call = Call(dataset: Contract, year: nat, groups: seq<Group>, replace: seq<Window>, out: Publication)

  const NO_TABLES := Tables(map[], map[], map[])

  /** The catalog after the calls. */
  function After(calls: seq<Call>): Tables {
    if calls == [] then NO_TABLES else Published(After(calls[..|calls| - 1]), calls[|calls| - 1].out)
  }

  ghost predicate Makes(k: Settings, t: Tables, call: Call) {
    IsPublication(k, t, call.dataset, call.year, call.groups, call.replace, call.out)
  }

  /** Each call is a publication in the state the earlier ones left. */
  ghost predicate IsRun(k: Settings, calls: seq<Call>) {
    calls == [] || (IsRun(k, calls[..|calls| - 1]) && Makes(k, After(calls[..|calls| - 1]), calls[|calls| - 1]))
  }

  ghost predicate InYear(t: Tables, call: Call) {
    call.out.manifest.status == AVAILABLE ==> BeginsInYear(t, call.out.previous, call.groups, call.replace, call.year)
  }

  /** What every AVAILABLE publication of the run was handed or carried begins in its year. */
  ghost predicate AllInYear(calls: seq<Call>) {
    calls == [] || (AllInYear(calls[..|calls| - 1]) && InYear(After(calls[..|calls| - 1]), calls[|calls| - 1]))
  }

  /** The ids that were ever AVAILABLE. */
  function Ever(calls: seq<Call>): set<ManifestId> {
    set i | 0 <= i < |calls| && calls[i].out.manifest.status == AVAILABLE :: calls[i].out.manifest.id
  }

  lemma OneMoreEver(calls: seq<Call>)
    requires calls != []
    ensures var front, last := Ever(calls[..|calls| - 1]), calls[|calls| - 1].out.manifest;
            Ever(calls) == if last.status == AVAILABLE then front + {last.id} else front
  {
    var n := |calls| - 1;
    assert forall i :: 0 <= i < n ==> calls[..n][i] == calls[i];
  }

  // ---- numbering ---------------------------------------------------------------------------

  ghost predicate Live(t: Tables, id: ManifestId) {
    id in t.manifests && t.manifests[id].status == AVAILABLE
  }

  predicate SameSeries(a: ManifestId, b: ManifestId) {
    a.dataset == b.dataset && a.year == b.year
  }

  /** The row is filed under its own id's dataset and year. */
  ghost predicate FiledUnder(id: ManifestId, m: Manifest) {
    && m.feed == id.dataset.feed && m.layer == id.dataset.layer && m.resolution == id.dataset.resolution
    && m.instrument.None? && UtcYear(m.periodStart) == id.year
  }

  /** The revisions of a dataset's year that were ever AVAILABLE are 1 up to the one in
      service, which is the only one. */
  ghost predicate Numbered(t: Tables, ever: set<ManifestId>) {
    LiveIsFiled(t, ever) && LiveIsTop(t, ever) && EverHasLive(t, ever) && Dense(ever)
  }

  ghost predicate LiveIsFiled(t: Tables, ever: set<ManifestId>) {
    forall id :: Live(t, id) ==> id in ever && FiledUnder(id, t.manifests[id])
  }

  ghost predicate LiveIsTop(t: Tables, ever: set<ManifestId>) {
    forall a, b :: Live(t, a) && b in ever && SameSeries(a, b) ==> b.revision <= a.revision
  }

  ghost predicate EverHasLive(t: Tables, ever: set<ManifestId>) {
    forall id :: id in ever ==> HasLive(t, id)
  }

  /** No revision below one that was AVAILABLE is missing. */
  ghost predicate Dense(ever: set<ManifestId>) {
    forall id :: id in ever ==> id.revision >= 1 && (id.revision > 1 ==> Before(id) in ever)
  }

  function Before(id: ManifestId): ManifestId {
    id.(revision := id.revision - 1)
  }

  ghost predicate HasLive(t: Tables, id: ManifestId) {
    exists live :: Live(t, live) && SameSeries(live, id)
  }

  lemma NothingNumbered()
    ensures Numbered(NO_TABLES, {}) && WellKeyed(NO_TABLES) && Referenced(NO_TABLES) && ChainIncreases(NO_TABLES)
  {
  }

  /** What the lookup finds is the series' one live manifest. */
  lemma LookupFindsLive(t: Tables, ever: set<ManifestId>, c: Contract, year: nat, previous: Option<Manifest>)
    requires Numbered(t, ever) && WellKeyed(t) && IsLatest(t, c, year, previous)
    ensures previous.None? ==> forall id :: id in ever ==> !(id.dataset == c && id.year == year)
    ensures previous.Some? ==>
              && Live(t, previous.value.id) && previous.value.id.dataset == c && previous.value.id.year == year
              && previous.value.revision == previous.value.id.revision && t.manifests[previous.value.id] == previous.value
              && (forall id :: id in ever && id.dataset == c && id.year == year ==> id.revision <= previous.value.id.revision)
  {
    hide UtcYear;
    forall id | id in ever && id.dataset == c && id.year == year ensures previous.Some? {
      assert HasLive(t, id);
      var live :| Live(t, live) && SameSeries(live, id);
      assert Matches(c, year, t.manifests[live]);
    }
    if previous.Some? {
      assert Live(t, previous.value.id);
    }
  }

  ghost predicate Fresh(ever: set<ManifestId>, out: Publication) {
    && out.manifest.id !in ever && out.manifest.id.revision >= 1
    && (out.manifest.id.revision > 1 ==> Before(out.manifest.id) in ever)
  }

  lemma NextIdIsFresh(k: Settings, t: Tables, ever: set<ManifestId>, call: Call)
    requires Numbered(t, ever) && WellKeyed(t) && Makes(k, t, call) && k.revision.None?
    ensures Fresh(ever, call.out)
    ensures forall id :: id in ever && SameSeries(id, call.out.manifest.id) ==> id.revision < call.out.manifest.id.revision
  {
    hide Wrote, Retains, Observed, ForDataset, IsLatest, Numbered;
    LookupFindsLive(t, ever, call.dataset, call.year, call.out.previous);
    if call.out.previous.Some? { LiveIsEver(t, ever, call.out.previous.value.id); }
  }

  lemma LiveIsEver(t: Tables, ever: set<ManifestId>, id: ManifestId)
    requires Numbered(t, ever) && Live(t, id)
    ensures id in ever && id.revision >= 1
  {
  }

  /** A row under a fresh id, put into service in place of its series' live one or not. */
  ghost predicate Replaces(t: Tables, ever: set<ManifestId>, out: Publication, u: Tables) {
    var id, row := out.manifest.id, t.manifests[out.manifest.id := out.manifest];
    && (forall x :: x in ever && SameSeries(x, id) ==> x.revision < id.revision)
    && (out.previous.None? ==> forall x :: x in ever ==> !SameSeries(x, id))
    && (out.previous.Some? ==> Live(t, out.previous.value.id) && SameSeries(out.previous.value.id, id) && out.previous.value.id != id)
    && (out.manifest.status == AVAILABLE || out.manifest.status == QUARANTINED)
    && u.manifests == if out.manifest.status == AVAILABLE && out.previous.Some?
                      then row[out.previous.value.id := out.previous.value.(status := SUPERSEDED)] else row
  }

  /** The new row is live when AVAILABLE, in place of its series' live row. */
  ghost predicate LiveMoves(t: Tables, u: Tables, id: ManifestId, available: bool) {
    && (forall x :: Live(u, x) <==> (available && x == id) || (Live(t, x) && !(available && SameSeries(x, id))))
    && (forall x :: Live(u, x) && x != id ==> u.manifests[x] == t.manifests[x])
  }

  lemma LiveAfter(t: Tables, ever: set<ManifestId>, out: Publication, u: Tables)
    requires LiveIsFiled(t, ever) && LiveIsTop(t, ever) && Replaces(t, ever, out, u)
    ensures LiveMoves(t, u, out.manifest.id, out.manifest.status == AVAILABLE)
  {
    hide FiledUnder;
    var id := out.manifest.id;
    assert id !in ever;
    forall x | Live(t, x) && SameSeries(x, id) ensures out.previous.Some? && x == out.previous.value.id {
      assert x in ever;
      assert x.revision <= out.previous.value.id.revision && out.previous.value.id.revision <= x.revision;
    }
  }

  function Grown(ever: set<ManifestId>, id: ManifestId, available: bool): set<ManifestId> {
    if available then ever + {id} else ever
  }

  lemma TopGoesOn(t: Tables, ever: set<ManifestId>, u: Tables, id: ManifestId, available: bool)
    requires LiveMoves(t, u, id, available) && LiveIsTop(t, ever) && forall x :: x in ever && SameSeries(x, id) ==> x.revision < id.revision
    ensures LiveIsTop(u, Grown(ever, id, available))
  {
    hide Live;
  }

  lemma FiledGoesOn(t: Tables, ever: set<ManifestId>, u: Tables, id: ManifestId, available: bool)
    requires LiveMoves(t, u, id, available) && LiveIsFiled(t, ever)
    requires id !in ever && (available ==> id in u.manifests && FiledUnder(id, u.manifests[id]))
    ensures LiveIsFiled(u, Grown(ever, id, available))
  {
    hide FiledUnder;
  }

  lemma DenseGoesOn(ever: set<ManifestId>, out: Publication, available: bool)
    requires Dense(ever) && Fresh(ever, out)
    ensures Dense(Grown(ever, out.manifest.id, available))
  {
  }

  lemma ServedGoesOn(t: Tables, ever: set<ManifestId>, u: Tables, id: ManifestId, available: bool)
    requires LiveMoves(t, u, id, available) && EverHasLive(t, ever)
    ensures EverHasLive(u, Grown(ever, id, available))
  {
    hide Live;
    forall x | x in Grown(ever, id, available) ensures HasLive(u, x) {
      if available && SameSeries(x, id) {
        assert Live(u, id);
      } else {
        assert HasLive(t, x);
        var live :| Live(t, live) && SameSeries(live, x);
        assert Live(u, live);
      }
    }
  }

  lemma NumberingGoesOn(t: Tables, ever: set<ManifestId>, out: Publication, u: Tables)
    requires Numbered(t, ever) && Fresh(ever, out) && Replaces(t, ever, out, u)
    requires out.manifest.status == AVAILABLE ==> FiledUnder(out.manifest.id, out.manifest)
    ensures Numbered(u, Grown(ever, out.manifest.id, out.manifest.status == AVAILABLE))
  {
    hide FiledUnder, LiveIsFiled, LiveIsTop, EverHasLive, Dense, Live;
    var id, available := out.manifest.id, out.manifest.status == AVAILABLE;
    LiveAfter(t, ever, out, u);
    hide LiveMoves;
    TopGoesOn(t, ever, u, id, available);
    FiledGoesOn(t, ever, u, id, available);
    DenseGoesOn(ever, out, available);
    ServedGoesOn(t, ever, u, id, available);
  }

  lemma CallReplaces(k: Settings, t: Tables, ever: set<ManifestId>, call: Call)
    requires Numbered(t, ever) && WellKeyed(t) && Makes(k, t, call) && k.revision.None?
    ensures Fresh(ever, call.out) && Replaces(t, ever, call.out, Published(t, call.out)) && WellKeyed(Published(t, call.out))
  {
    hide Numbered, Fresh, Wrote, Retains, Observed, IsLatest, NextRevision, Published, WellKeyed, ForDataset, Live;
    PublishedManifests(k, t, call.dataset, call.year, call.groups, call.replace, call.out);
    NextIdIsFresh(k, t, ever, call);
    LookupFindsLive(t, ever, call.dataset, call.year, call.out.previous);
    if call.out.previous.Some? { LiveIsEver(t, ever, call.out.previous.value.id); }
  }

  lemma AvailableIsFiled(k: Settings, t: Tables, call: Call)
    requires WellKeyed(t) && Makes(k, t, call) && InYear(t, call) && call.out.manifest.status == AVAILABLE
    ensures FiledUnder(call.out.manifest.id, call.out.manifest)
  {
    hide Wrote, Retains, Observed, IsLatest, NextRevision, WellKeyed, BeginsInYear, UtcYear;
    PeriodBeginsWithEarliest(k, t, call.dataset, call.year, call.groups, call.replace, call.out);
  }

  /** One more publication under the year its bars begin in. */
  lemma CallGoesOn(k: Settings, t: Tables, ever: set<ManifestId>, call: Call)
    requires Numbered(t, ever) && WellKeyed(t) && Makes(k, t, call) && k.revision.None? && InYear(t, call)
    ensures WellKeyed(Published(t, call.out))
    ensures Numbered(Published(t, call.out), Grown(ever, call.out.manifest.id, call.out.manifest.status == AVAILABLE))
  {
    hide Numbered, Fresh, Published, WellKeyed, Makes, InYear, Replaces, FiledUnder;
    CallReplaces(k, t, ever, call);
    if call.out.manifest.status == AVAILABLE { AvailableIsFiled(k, t, call); }
    NumberingGoesOn(t, ever, call.out, Published(t, call.out));
  }

  // ---- every run -----------------------------------------------------------------------------

  lemma {:induction false} RunIsKeyed(k: Settings, calls: seq<Call>)
    requires IsRun(k, calls)
    ensures WellKeyed(After(calls)) && Referenced(After(calls))
    ensures k.revision.None? ==> ChainIncreases(After(calls))
  {
    hide WellKeyed, Referenced, ChainIncreases, Published, IsPublication;
    if calls == [] {
      NothingNumbered();
    } else {
      var t, last := After(calls[..|calls| - 1]), calls[|calls| - 1];
      RunIsKeyed(k, calls[..|calls| - 1]);
      PublishedManifests(k, t, last.dataset, last.year, last.groups, last.replace, last.out);
      ManifestOwnsItsObjects(k, t, last.dataset, last.year, last.groups, last.replace, last.out);
      if k.revision.None? { AutomaticRevisionsIncrease(k, t, last.dataset, last.year, last.groups, last.replace, last.out); }
    }
  }

  /** As long as every AVAILABLE publication begins in its own year, the numbering holds. */
  lemma {:induction false} RunIsNumbered(k: Settings, calls: seq<Call>)
    requires IsRun(k, calls) && AllInYear(calls) && k.revision.None?
    ensures Numbered(After(calls), Ever(calls))
  {
    hide Numbered, WellKeyed, Referenced, Published, Makes, InYear, ChainIncreases, Ever;
    if calls == [] {
      NothingNumbered();
      NothingEver();
    } else {
      var front, last := calls[..|calls| - 1], calls[|calls| - 1];
      RunIsNumbered(k, front);
      RunIsKeyed(k, front);
      CallGoesOn(k, After(front), Ever(front), last);
      OneMoreEver(calls);
    }
  }

  lemma NothingEver()
    ensures Ever([]) == {}
  {
  }

  /** The commit check never refuses such a run: one AVAILABLE manifest per key. */
  lemma NumberedIsCommitted(t: Tables, ever: set<ManifestId>)
    requires Numbered(t, ever)
    ensures SingleAvailable(t)
  {
    hide UtcYear, Dense, EverHasLive;
    forall key ensures SingleUnder(t, key) {
      forall a, b | AvailableUnder(t, key, a) && AvailableUnder(t, key, b) ensures a == b {
        assert Live(t, a) && Live(t, b);
        assert SameSeries(a, b);
        assert a.revision <= b.revision && b.revision <= a.revision;
      }
    }
  }

  /** Such a run's chain counts up, and every state it passes has one AVAILABLE manifest
      per key. */
  lemma RunStaysCommitted(k: Settings, calls: seq<Call>)
    requires IsRun(k, calls) && AllInYear(calls) && k.revision.None?
    ensures Committed(After(calls)) && ChainIncreases(After(calls))
  {
    hide Numbered, WellKeyed, SingleAvailable, IsRun, AllInYear;
    RunIsKeyed(k, calls);
    RunIsNumbered(k, calls);
    NumberedIsCommitted(After(calls), Ever(calls));
  }

  lemma {:induction false} PrefixRuns(k: Settings, calls: seq<Call>, n: nat)
    requires IsRun(k, calls) && n <= |calls|
    ensures IsRun(k, calls[..n]) && (AllInYear(calls) ==> AllInYear(calls[..n]))
    ensures n < |calls| ==> Makes(k, After(calls[..n]), calls[n])
  {
    hide Makes, InYear, After;
    var m := |calls| - 1;
    if n == |calls| {
      assert calls[..n] == calls;
    } else if n < m {
      PrefixRuns(k, calls[..m], n);
      assert calls[..m][..n] == calls[..n];
    }
  }

  /** No id that was ever AVAILABLE is given out again, to any kind of publication. */
  lemma NoIdIsReused(k: Settings, calls: seq<Call>, i: nat, j: nat)
    requires IsRun(k, calls) && AllInYear(calls) && k.revision.None? && i < j < |calls|
    requires calls[i].out.manifest.status == AVAILABLE
    ensures calls[j].out.manifest.id != calls[i].out.manifest.id
  {
    hide Numbered, WellKeyed, Makes, AllInYear, IsRun;
    PrefixRuns(k, calls, j);
    RunIsNumbered(k, calls[..j]);
    RunIsKeyed(k, calls[..j]);
    NextIdIsFresh(k, After(calls[..j]), Ever(calls[..j]), calls[j]);
    assert calls[..j][i] == calls[i];
  }

  // ---- objects over a run ------------------------------------------------------------------------

  /** The rows staged under an id, by all the attempts at it. */
  function StagedUnder(calls: seq<Call>, id: ManifestId): set<RelationId> {
    if calls == [] then {}
    else
      var last := calls[|calls| - 1].out;
      StagedUnder(calls[..|calls| - 1], id) + (if last.manifest.id == id then RelationIds(Objects(last)) else {})
  }

  /** In any run a manifest owns exactly what the attempts under its id staged. */
  lemma {:induction false} RunOwnsWhatItStaged(k: Settings, calls: seq<Call>, id: ManifestId)
    requires IsRun(k, calls)
    ensures OwnedIds(After(calls), id) == StagedUnder(calls, id)
  {
    hide WellKeyed, Referenced, Published, IsPublication, RelationIds;
    if calls != [] {
      var front, last := calls[..|calls| - 1], calls[|calls| - 1];
      RunOwnsWhatItStaged(k, front, id);
      RunIsKeyed(k, front);
      if last.out.manifest.id == id {
        ManifestOwnsItsObjects(k, After(front), last.dataset, last.year, last.groups, last.replace, last.out);
      } else {
        OtherManifestsKeepTheirObjects(k, After(front), last.dataset, last.year, last.groups, last.replace, last.out,
          id);
      }
    }
  }

  lemma {:induction false} StagedOnce(calls: seq<Call>, i: nat)
    requires i < |calls| && forall j :: 0 <= j < |calls| && j != i ==> calls[j].out.manifest.id != calls[i].out.manifest.id
    ensures StagedUnder(calls, calls[i].out.manifest.id) == RelationIds(Objects(calls[i].out))
  {
    hide RelationIds, Objects;
    var n := |calls| - 1;
    if i < n {
      assert calls[..n][i] == calls[i];
      StagedOnce(calls[..n], i);
    } else {
      NotStaged(calls[..n], calls[i].out.manifest.id);
    }
  }

  lemma {:induction false} NotStaged(calls: seq<Call>, id: ManifestId)
    requires forall j :: 0 <= j < |calls| ==> calls[j].out.manifest.id != id
    ensures StagedUnder(calls, id) == {}
  {
    if calls != [] { NotStaged(calls[..|calls| - 1], id); }
  }

  ghost predicate SameRows(t: Tables, u: Tables, id: ManifestId) {
    && OwnedIds(u, id) == OwnedIds(t, id)
    && forall x :: x in OwnedIds(t, id) ==>
         && x in u.relations && u.relations[x] == t.relations[x]
         && t.relations[x].stored in u.storage && u.storage[t.relations[x].stored].id == t.relations[x].stored
  }

  /** Whatever is published later, an AVAILABLE manifest keeps the rows and bytes it came
      out with; they are exactly its own carried and new objects when no quarantined
      attempt used its revision before. */
  lemma {:induction false} AvailableKeepsItsObjects(k: Settings, calls: seq<Call>, i: nat)
    requires IsRun(k, calls) && AllInYear(calls) && k.revision.None? && i < |calls|
    requires calls[i].out.manifest.status == AVAILABLE
    ensures SameRows(After(calls[..i + 1]), After(calls), calls[i].out.manifest.id)
    ensures (forall j :: 0 <= j < i ==> calls[j].out.manifest.id != calls[i].out.manifest.id) ==>
              OwnedIds(After(calls), calls[i].out.manifest.id) == RelationIds(Objects(calls[i].out))
  {
    hide WellKeyed, Published, Makes, AllInYear, RelationIds, Objects, OwnedIds, SameRows, Referenced, ChainIncreases;
    RowsStay(k, calls, i);
    forall j | i < j < |calls| ensures calls[j].out.manifest.id != calls[i].out.manifest.id { NoIdIsReused(k, calls, i, j); }
    RunOwnsWhatItStaged(k, calls, calls[i].out.manifest.id);
    if forall j :: 0 <= j < i ==> calls[j].out.manifest.id != calls[i].out.manifest.id { StagedOnce(calls, i); }
  }

  lemma {:induction false} RowsStay(k: Settings, calls: seq<Call>, i: nat)
    requires IsRun(k, calls) && AllInYear(calls) && k.revision.None? && i < |calls|
    requires calls[i].out.manifest.status == AVAILABLE
    ensures SameRows(After(calls[..i + 1]), After(calls), calls[i].out.manifest.id)
  {
    hide Published, Makes, IsRun, AllInYear, OwnedIds, Referenced, ChainIncreases, WellKeyed, SameRows;
    var n, id := |calls| - 1, calls[i].out.manifest.id;
    if i == n {
      assert calls[..i + 1] == calls;
      RunIsKeyed(k, calls);
      RowsAreTheirOwn(After(calls), id);
    } else {
      var front := calls[..n];
      assert front[i] == calls[i] && front[..i + 1] == calls[..i + 1];
      PrefixRuns(k, calls, n);
      RowsStay(k, front, i);
      RunIsKeyed(k, front);
      NoIdIsReused(k, calls, i, n);
      RowsStayOnce(k, After(front), calls[n], id);
      SameRowsTwice(After(calls[..i + 1]), After(front), After(calls), id);
    }
  }

  lemma RowsStayOnce(k: Settings, t: Tables, call: Call, id: ManifestId)
    requires WellKeyed(t) && Makes(k, t, call) && id != call.out.manifest.id
    ensures SameRows(t, Published(t, call.out), id)
  {
    hide IsPublication, Published, WellKeyed, OwnedIds;
    OtherManifestsKeepTheirObjects(k, t, call.dataset, call.year, call.groups, call.replace, call.out, id);
    PublishedManifests(k, t, call.dataset, call.year, call.groups, call.replace, call.out);
    RowsAreTheirOwn(Published(t, call.out), id);
  }

  lemma SameRowsTwice(t: Tables, u: Tables, v: Tables, id: ManifestId)
    requires SameRows(t, u, id) && SameRows(u, v, id)
    ensures SameRows(t, v, id)
  {
    hide OwnedIds;
  }

  lemma RowsAreTheirOwn(t: Tables, id: ManifestId)
    requires WellKeyed(t)
    ensures SameRows(t, t, id)
  {
  }

  // ---- when the year is another one -----------------------------------------------------------------

  lemma {:induction false} DenseReachesOne(ever: set<ManifestId>, id: ManifestId)
    requires Dense(ever) && id in ever
    ensures id.(revision := 1) in ever
    decreases id.revision
  {
    if id.revision > 1 { DenseReachesOne(ever, Before(id)); }
  }

  lemma LookupFindsNothing(t: Tables, ever: set<ManifestId>, u: Tables, id: ManifestId, previous: Option<Manifest>)
    requires LiveIsFiled(t, ever) && LiveMoves(t, u, id, true)
    requires id in u.manifests && UtcYear(u.manifests[id].periodStart) != id.year
    requires IsLatest(u, id.dataset, id.year, previous)
    ensures previous.None?
  {
    hide UtcYear;
    forall x | Live(t, x) ensures Matches(id.dataset, id.year, t.manifests[x]) ==> SameSeries(x, id) {
      assert FiledUnder(x, t.manifests[x]);
    }
    assert forall x :: x in u.manifests && Matches(id.dataset, id.year, u.manifests[x]) ==> Live(u, x);
  }

  /** The year's next publication builds on nothing after one that begins in another year. */
  lemma NextBuildsOnNothing(k: Settings, t: Tables, ever: set<ManifestId>, p: Call, q: Call)
    requires Numbered(t, ever) && WellKeyed(t) && k.revision.None? && Makes(k, t, p) && p.out.manifest.status == AVAILABLE
    requires !InYear(t, p) && Makes(k, Published(t, p.out), q) && q.dataset == p.dataset && q.year == p.year
    ensures q.out.previous.None? && q.out.manifest.id == ManifestId(p.dataset, p.year, 1)
  {
    hide Wrote, Retains, Observed, ForDataset, UtcYear, BeginsInYear, WellKeyed, Published, IsEarliest, LiveIsFiled,
      LiveIsTop;
    hide EverHasLive, Dense, Fresh, IsLatest, LiveMoves;
    PeriodBeginsWithEarliest(k, t, p.dataset, p.year, p.groups, p.replace, p.out);
    CallReplaces(k, t, ever, p);
    LiveAfter(t, ever, p.out, Published(t, p.out));
    LookupFindsNothing(t, ever, Published(t, p.out), p.out.manifest.id, q.out.previous);
  }

  /** The year's next publication, whatever comes of it, gets an id that was never
      AVAILABLE exactly when this one begins in its own year. */
  lemma NextIdIsFreshExactlyInYear(k: Settings, calls: seq<Call>, p: Call, q: Call)
    requires IsRun(k, calls) && AllInYear(calls) && k.revision.None?
    requires Makes(k, After(calls), p) && p.out.manifest.status == AVAILABLE
    requires Makes(k, Published(After(calls), p.out), q) && q.dataset == p.dataset && q.year == p.year
    ensures q.out.manifest.id !in Ever(calls) + {p.out.manifest.id} <==> InYear(After(calls), p)
  {
    var t, ever := After(calls), Ever(calls);
    hide Numbered, WellKeyed, Makes, AllInYear, IsRun, Referenced, ChainIncreases, InYear, Published, Ever, After;
    RunIsNumbered(k, calls);
    RunIsKeyed(k, calls);
    NextIdIsFresh(k, t, ever, p);
    if InYear(t, p) {
      CallGoesOn(k, t, ever, p);
      NextIdIsFresh(k, Published(t, p.out), ever + {p.out.manifest.id}, q);
    } else {
      NextBuildsOnNothing(k, t, ever, p, q);
      FirstWasAvailable(k, t, ever, p);
    }
  }

  lemma FirstWasAvailable(k: Settings, t: Tables, ever: set<ManifestId>, p: Call)
    requires Numbered(t, ever) && Fresh(ever, p.out) && Makes(k, t, p)
    ensures ManifestId(p.dataset, p.year, 1) in ever + {p.out.manifest.id}
  {
    var id := p.out.manifest.id;
    assert id == ManifestId(p.dataset, p.year, id.revision) by { hide Wrote, Retains, Observed, ForDataset, IsLatest, Numbered, NextRevision; }
    hide Makes;
    if id.revision > 1 { DenseReachesOne(ever, Before(id)); }
  }

  // ---- the week of the new year -----------------------------------------------------------------------

  /** A realtime flush publishes a week under the year of its Monday. When it holds only
      bars of the new year, the next flush of the week repeats its id, and if that one is
      quarantined the finished week is out of service. */
  lemma WeekFlushRepeatsItsId(k: Settings, d: int, week: Group, p: Call, q: Call)
    requires k.revision.None? && d >= 1 && week.window == PartitionBounds(d, WEEK) && YearOf(week.window.start) != YearOf(d)
    requires forall b :: b in week.rows ==> UtcYear(b.start) == YearOf(d)
    requires p.groups == [week] && p.year == YearOf(week.window.start) && p.out.manifest.status == AVAILABLE
    requires Makes(k, NO_TABLES, p) && Makes(k, After([p]), q) && q.dataset == p.dataset && q.year == p.year
    ensures q.out.manifest.id == p.out.manifest.id
    ensures q.out.manifest.status == QUARANTINED ==> After([p, q]).manifests[p.out.manifest.id].status == QUARANTINED
  {
    hide Makes, Published, YearOf, UtcYear, PartitionBounds, IsRun;
    TwoCalls(p, q);
    NothingNumbered();
    BeginsInNewYear(k, d, week, p);
    CallReplaces(k, NO_TABLES, {}, p);
    NextBuildsOnNothing(k, NO_TABLES, {}, p, q);
    FirstWasAvailable(k, NO_TABLES, {}, p);
    if q.out.manifest.status == QUARANTINED { QuarantinedRowStands(k, After([p]), q); }
  }

  lemma TwoCalls(p: Call, q: Call)
    ensures After([p]) == Published(NO_TABLES, p.out) && After([p, q]) == Published(After([p]), q.out)
  {
    assert [p, q][..1] == [p] && [p][..0] == [];
  }

  lemma QuarantinedRowStands(k: Settings, t: Tables, q: Call)
    requires WellKeyed(t) && Makes(k, t, q) && q.out.manifest.status == QUARANTINED
    ensures q.out.manifest.id in Published(t, q.out).manifests
    ensures Published(t, q.out).manifests[q.out.manifest.id].status == QUARANTINED
  {
    PublishedManifests(k, t, q.dataset, q.year, q.groups, q.replace, q.out);
    hide IsPublication, Published;
  }

  lemma BeginsInNewYear(k: Settings, d: int, week: Group, p: Call)
    requires d >= 1 && p.groups == [week] && p.year != YearOf(d) && forall b :: b in week.rows ==> UtcYear(b.start) == YearOf(d)
    requires Makes(k, NO_TABLES, p) && p.out.manifest.status == AVAILABLE
    ensures !InYear(NO_TABLES, p)
  {
    hide UtcYear, YearOf, Wrote, Retains, Observed, ForDataset;
    assert p.out.previous.None?;
    forall at | Starts(NO_TABLES, p.out.previous, p.groups, p.replace, at) ensures UtcYear(at) == YearOf(d) {
      var g, b :| g in p.groups && b in g.rows && b.start == at;
      assert g == week;
    }
  }

  /** There are such weeks: 2 January 2026 lies in the week of Monday 29 December 2025. */
  lemma NewYearWeek()
    ensures PartitionBounds(739618, WEEK).start == 739614 && YearOf(739614) == 2025 && YearOf(739618) == 2026
  {
    hide MonthStart, YearOf, PartitionBounds, Weekday;
    YearBegins(2024);
    YearBegins(2025);
    YearBegins(2026);
    YearOfDay(739614, 2025);
    YearOfDay(739618, 2026);
    WeekOf(739618);
  }
}
