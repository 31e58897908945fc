/** What retention changes: the state a refused batch leaves behind, and the events a batch
    and one-by-one submission judge differently. */
module IngestEviction {
  import opened Common
  import opened Partitions
  import opened Ingest
  import opened IngestBatch
  import opened IngestRuns

  // ---- the newest dates --------------------------------------------------------------------

  lemma {:induction false} Latest(dates: set<Date>) returns (m: Date)
    requires |dates| > 0
    ensures m in dates && forall d :: d in dates ==> d <= m
  {
    m :| m in dates;
    var others := dates - {m};
    if |others| > 0 {
      var rest := Latest(others);
      assert forall d :: d in dates ==> d == m || d in others;
      if rest > m { m := rest; }
    }
  }

  /** Dates already dropped do not change which ones are the newest. */
  lemma NewestOfPart(all: set<Date>, part: set<Date>, r: nat)
    requires part <= all && Newest(all, r) <= part
    ensures Newest(part, r) == Newest(all, r)
  {
    forall x | x in Newest(all, r) ensures x in Newest(part, r) {
      SubsetSize(Newer(part, x), Newer(all, x));
    }
    forall x | x in Newest(part, r) ensures x in Newest(all, r) {
      var lost := Newer(all, x) - part;
      if |lost| > 0 {
        var z := Latest(lost);
        assert z !in Newest(all, r);
        forall y | y in Newer(all, z) ensures y in Newer(part, x) {
          assert y !in lost;
        }
        SubsetSize(Newer(all, z), Newer(part, x));
      } else {
        forall y | y in Newer(all, x) ensures y in Newer(part, x) {
          assert y !in lost;
        }
        SubsetSize(Newer(all, x), Newer(part, x));
      }
    }
  }

  /** What is remembered of some dates only. */
  function Only(s: Ingestor, keep: set<Date>): Ingestor {
    s.(seen := map id | id in s.seen && s.seen[id] in keep :: s.seen[id],
       slots := map k | k in s.slots && s.slots[k].session in keep :: s.slots[k])
  }

  lemma RetainIsCut(c: Config, s: Ingestor, d: Date)
    ensures Retain(c, s, d) == Only(s, Newest(Sessions(s) + {d}, c.retention))
  {
    var dates := Sessions(s) + {d};
    if |dates| <= c.retention {
      forall x | x in dates ensures x in Newest(dates, c.retention) { NewestKeepsRecent(dates, c.retention, x); }
      hide Newest;
      CutNothing(s, Newest(dates, c.retention));
    } else {
      hide Newest, Sessions;
    }
  }

  lemma CutNothing(s: Ingestor, keep: set<Date>)
    requires Sessions(s) <= keep
    ensures Only(s, keep) == s
  {
    assert forall id :: id in s.seen ==> s.seen[id] in Sessions(s);
    assert forall k :: k in s.slots ==> s.slots[k].session in Sessions(s);
    hide Sessions;
    assert Only(s, keep).seen == s.seen && Only(s, keep).slots == s.slots;
  }

  // ---- the state without eviction ---------------------------------------------------------------

  /** t is u with older entries forgotten; everything of u's newest dates is still there. */
  ghost predicate Forgotten(c: Config, u: Ingestor, t: Ingestor) {
    && t.buffer == u.buffer && t.heads == u.heads && Remains(u, t)
    && (forall id :: id in u.seen && u.seen[id] in Newest(Sessions(u), c.retention) ==> id in t.seen)
    && (forall k :: k in u.slots && u.slots[k].session in Newest(Sessions(u), c.retention) ==> k in t.slots)
  }

  ghost predicate Remains(u: Ingestor, t: Ingestor) {
    && (forall id :: id in t.seen ==> id in u.seen && t.seen[id] == u.seen[id])
    && (forall k :: k in t.slots ==> k in u.slots && t.slots[k] == u.slots[k])
  }

  lemma RemainingSessions(c: Config, u: Ingestor, t: Ingestor)
    requires Forgotten(c, u, t)
    ensures Newest(Sessions(u), c.retention) <= Sessions(t) <= Sessions(u)
  {
    hide Newer;
    forall x | x in Newest(Sessions(u), c.retention) ensures x in Sessions(t) {
      assert x in Sessions(u);
      if id :| id in u.seen && u.seen[id] == x { assert t.seen[id] == x; }
      else { var k :| k in u.slots && u.slots[k].session == x; assert t.slots[k].session == x; }
    }
  }

  /** One date more: only that date can join the newest ones. */
  lemma NewestWithOneMore(dates: set<Date>, d: Date, r: nat)
    ensures forall x :: x in Newest(dates + {d}, r) && x in dates ==> x in Newest(dates, r)
  {
    forall x | x in Newest(dates + {d}, r) && x in dates ensures x in Newest(dates, r) {
      SubsetSize(Newer(dates, x), Newer(dates + {d}, x));
    }
  }

  lemma CutAgain(c: Config, u: Ingestor, t: Ingestor, top: set<Date>)
    requires Forgotten(c, u, t) && forall x :: x in top && x in Sessions(u) ==> x in Newest(Sessions(u), c.retention)
    ensures Only(t, top) == Only(u, top)
  {
    hide Newest, Sessions;
    EntriesAreDated(u);
    hide Only;
    CutSeenAgain(c, u, t, top);
    CutSlotsAgain(c, u, t, top);
    SameCut(t, u, top);
  }

  lemma SameCut(t: Ingestor, u: Ingestor, top: set<Date>)
    requires t.buffer == u.buffer && t.heads == u.heads
    requires Only(t, top).seen == Only(u, top).seen && Only(t, top).slots == Only(u, top).slots
    ensures Only(t, top) == Only(u, top)
  {
  }

  lemma EntriesAreDated(s: Ingestor)
    ensures forall id :: id in s.seen ==> s.seen[id] in Sessions(s)
    ensures forall k :: k in s.slots ==> s.slots[k].session in Sessions(s)
  {
  }

  lemma CutSeenAgain(c: Config, u: Ingestor, t: Ingestor, top: set<Date>)
    requires Forgotten(c, u, t) && forall id :: id in u.seen && u.seen[id] in top ==> u.seen[id] in Newest(Sessions(u), c.retention)
    ensures Only(t, top).seen == Only(u, top).seen
  {
    hide Newest, Sessions;
  }

  lemma CutSlotsAgain(c: Config, u: Ingestor, t: Ingestor, top: set<Date>)
    requires Forgotten(c, u, t) && forall k :: k in u.slots && u.slots[k].session in top ==> u.slots[k].session in Newest(Sessions(u), c.retention)
    ensures Only(t, top).slots == Only(u, top).slots
  {
    hide Newest, Sessions;
  }

  /** However often retention ran before, it leaves exactly the newest dates of everything
      that was ever held. */
  lemma RetentionIsOneCut(c: Config, u: Ingestor, t: Ingestor, d: Date)
    requires Forgotten(c, u, t)
    ensures Retain(c, t, d) == Only(u, Newest(Sessions(u) + {d}, c.retention))
  {
    var all, part := Sessions(u) + {d}, Sessions(t) + {d};
    var top := Newest(all, c.retention);
    assert top <= all;
    RetainIsCut(c, t, d);
    RemainingSessions(c, u, t);
    NewestWithOneMore(Sessions(u), d, c.retention);
    hide Sessions, Newer, Forgotten, Retain, Only, Newest;
    assert top <= part;
    NewestOfPart(all, part, c.retention);
    CutAgain(c, u, t, top);
  }

  ghost predicate NewBar(c: Config, u: Ingestor, p: Prepared) {
    p.Accepted? && p.event.id !in u.seen && p.shard in u.heads
  }

  lemma StoringAddsItsDate(c: Config, u: Ingestor, p: Prepared)
    requires NewBar(c, u, p) && SlotsDated(c, u)
    ensures Sessions(Applied(c, u, p)) == Sessions(u) + {c.sessionOf(p.event.occurredAt)} && SlotsDated(c, Applied(c, u, p))
  {
    hide Put, GroupOf, Compare;
    AppliedSessions(c, u, p);
    var w, d := Applied(c, u, p), c.sessionOf(p.event.occurredAt);
    assert w.seen[p.event.id] == d;
    forall x | x in Sessions(u) ensures x in Sessions(w) {
      if id :| id in u.seen && u.seen[id] == x {
        assert w.seen[id] == x;
      } else {
        var k :| k in u.slots && u.slots[k].session == x;
        assert w.slots[k].session == x;
      }
    }
  }

  lemma StoringOnTheCut(c: Config, u: Ingestor, p: Prepared, top: set<Date>)
    requires NewBar(c, u, p) && Newest(Sessions(Applied(c, u, p)), c.retention) == top
    ensures Forgotten(c, Applied(c, u, p), Applied(c, Only(u, top), p))
  {
    hide Put, GroupOf, Compare, Sessions, Newest;
  }

  lemma StoringKeepsForgotten(c: Config, u: Ingestor, t: Ingestor, p: Prepared)
    requires Forgotten(c, u, t) && NewBar(c, u, p) && SlotsDated(c, u)
    ensures var kept := Retain(c, t, c.sessionOf(p.event.occurredAt));
            p.shard in kept.heads && Forgotten(c, Applied(c, u, p), Applied(c, kept, p))
  {
    var d := c.sessionOf(p.event.occurredAt);
    RetentionIsOneCut(c, u, t, d);
    hide Applied, Sessions, Newest, SlotsDated, Forgotten, Retain;
    StoringAddsItsDate(c, u, p);
    StoringOnTheCut(c, u, p, Newest(Sessions(u) + {d}, c.retention));
  }

  // ---- a batch that the ledger stops -----------------------------------------------------------

  /** The bars a commit phase stores, and the one whose shard ends it. */
  datatype Course = Course(bars: seq<Prepared>, refused: Option<Prepared>)

  function CourseOf(shards: set<string>, items: seq<Prepared>): Course {
    if items == [] then Course([], None)
    else if items[0].Rejected? then CourseOf(shards, items[1..])
    else if items[0].shard !in shards then Course([], Some(items[0]))
    else var rest := CourseOf(shards, items[1..]); rest.(bars := [items[0]] + rest.bars)
  }

  /** The bars stored one after another, with nothing evicted. */
  function StoreAll(c: Config, u: Ingestor, bars: seq<Prepared>): Ingestor
    decreases |bars|
  {
    if bars == [] then u
    else if bars[0].Accepted? && bars[0].shard in u.heads then StoreAll(c, Applied(c, u, bars[0]), bars[1..])
    else StoreAll(c, u, bars[1..])
  }

  ghost predicate NewBars(c: Config, u: Ingestor, bars: seq<Prepared>)
    decreases |bars|
  {
    bars == [] || (NewBar(c, u, bars[0]) && NewBars(c, Applied(c, u, bars[0]), bars[1..]))
  }

  function DateOf(c: Config, p: Prepared): Date {
    c.sessionOf(p.event.occurredAt)
  }

  function Dates(c: Config, bars: seq<Prepared>): set<Date> {
    set i | 0 <= i < |bars| :: DateOf(c, bars[i])
  }

  lemma {:induction false} PreparedAreNew(c: Config, s: Ingestor, o: Overlay, u: Ingestor, events: seq<Parsed>)
    requires Simulates(s, o, u) && PrepareAll(c, s, o, events).Ok?
    ensures NewBars(c, u, CourseOf(s.heads.Keys, PrepareAll(c, s, o, events).value).bars)
    decreases |events|
  {
    hide Prepare, Absorb, Applied;
    if events != [] {
      var p := Prepare(c, s, o, events[0]).value;
      var rest := PrepareAll(c, s, Absorb(c, o, p), events[1..]).value;
      assert PrepareAll(c, s, o, events).value == [p] + rest && ([p] + rest)[1..] == rest;
      if p.Rejected? {
        NothingAbsorbed(c, o, p);
        PreparedAreNew(c, s, o, u, events[1..]);
      } else if p.shard in s.heads {
        AcceptedIsUnknown(c, s, o, events[0]);
        AppliedSimulates(c, s, o, u, p);
        PreparedAreNew(c, s, Absorb(c, o, p), Applied(c, u, p), events[1..]);
      }
    }
  }

  lemma NothingAbsorbed(c: Config, o: Overlay, p: Prepared)
    requires p.Rejected?
    ensures Absorb(c, o, p) == o
  {
  }

  lemma AcceptedIsUnknown(c: Config, s: Ingestor, o: Overlay, parsed: Parsed)
    requires Prepare(c, s, o, parsed).Ok? && Prepare(c, s, o, parsed).value.Accepted?
    ensures var e := Prepare(c, s, o, parsed).value.event; e.id !in s.seen && e.id !in o.ids
  {
    hide BarRow, Admit;
  }

  /** A commit phase the ledger stops leaves what the stored bars make, cut once. */
  lemma {:induction false} StoppedCommitIsOneCut(c: Config, u: Ingestor, t: Ingestor, items: seq<Prepared>)
    requires Forgotten(c, u, t) && SlotsDated(c, u) && NewBars(c, u, CourseOf(u.heads.Keys, items).bars)
    requires CommitAll(c, t, items).Raised?
    ensures var course := CourseOf(u.heads.Keys, items);
            && course.refused.Some?
            && var w := StoreAll(c, u, course.bars);
               CommitAll(c, t, items).after == Only(w, Newest(Sessions(w) + {DateOf(c, course.refused.value)}, c.retention))
    decreases |items|
  {
    hide Forgotten, SlotsDated, Applied, Retain, Sessions, Newest, Only;
    var p := items[0];
    SameHeads(c, u, t);
    if p.Rejected? {
      StoppedCommitIsOneCut(c, u, t, items[1..]);
    } else {
      var kept := Retain(c, t, DateOf(c, p));
      RetainKeepsShards(c, t, p);
      if p.shard !in u.heads {
        RetentionIsOneCut(c, u, t, DateOf(c, p));
      } else {
        var rest := CourseOf(u.heads.Keys, items[1..]).bars;
        assert ([p] + rest)[1..] == rest;
        StoringKeepsForgotten(c, u, t, p);
        StoringAddsItsDate(c, u, p);
        SameShards(c, u, p);
        StoppedCommitIsOneCut(c, Applied(c, u, p), Applied(c, kept, p), items[1..]);
      }
    }
  }

  lemma SameHeads(c: Config, u: Ingestor, t: Ingestor)
    requires Forgotten(c, u, t)
    ensures t.heads == u.heads
  {
  }

  lemma SameShards(c: Config, u: Ingestor, p: Prepared)
    requires p.Accepted? && p.shard in u.heads
    ensures Applied(c, u, p).heads.Keys == u.heads.Keys
  {
    hide Put, GroupOf, Compare;
  }

  lemma NothingForgotten(c: Config, s: Ingestor)
    ensures Forgotten(c, s, s)
  {
    hide Sessions, Newest;
  }

  /** What a batch leaves behind when the ledger stops it: its bars before the refused one,
      and of everything remembered the newest sessions, the refused bar's counted. */
  lemma StoppedBatchIsOneCut(c: Config, s: Ingestor, events: seq<Parsed>)
    requires SlotsDated(c, s) && PrepareAll(c, s, NOTHING, events).Ok? && SubmitBatch(c, s, events).Raised?
    ensures var course := CourseOf(s.heads.Keys, PrepareAll(c, s, NOTHING, events).value);
            && course.refused.Some? && NewBars(c, s, course.bars)
            && var w := StoreAll(c, s, course.bars);
               SubmitBatch(c, s, events).after == Only(w, Newest(Sessions(w) + {DateOf(c, course.refused.value)}, c.retention))
  {
    hide PrepareAll, CommitAll, SlotsDated, Sessions, Newest, Only, Forgotten, NewBars, CourseOf;
    assert Simulates(s, NOTHING, s);
    PreparedAreNew(c, s, NOTHING, s, events);
    NothingForgotten(c, s);
    StoppedCommitIsOneCut(c, s, s, PrepareAll(c, s, NOTHING, events).value);
  }

  // ---- what the stored bars make -----------------------------------------------------------------

  lemma FirstDate(c: Config, bars: seq<Prepared>)
    requires bars != []
    ensures Dates(c, bars) == {DateOf(c, bars[0])} + Dates(c, bars[1..])
  {
    hide DateOf;
    forall d | d in Dates(c, bars) ensures d in {DateOf(c, bars[0])} + Dates(c, bars[1..]) {
      var i :| 0 <= i < |bars| && d == DateOf(c, bars[i]);
      if i > 0 { assert bars[1..][i - 1] == bars[i]; }
    }
    forall d | d in Dates(c, bars[1..]) ensures d in Dates(c, bars) {
      var i :| 0 <= i < |bars| - 1 && d == DateOf(c, bars[1..][i]);
      assert bars[i + 1] == bars[1..][i];
    }
  }

  lemma {:induction false} StoredDates(c: Config, u: Ingestor, bars: seq<Prepared>)
    requires NewBars(c, u, bars) && SlotsDated(c, u)
    ensures Sessions(StoreAll(c, u, bars)) == Sessions(u) + Dates(c, bars) && SlotsDated(c, StoreAll(c, u, bars))
    decreases |bars|
  {
    hide Sessions, SlotsDated, Applied, Dates;
    if bars == [] {
      NoDates(c);
    } else {
      StoringAddsItsDate(c, u, bars[0]);
      StoredDates(c, Applied(c, u, bars[0]), bars[1..]);
      FirstDate(c, bars);
    }
  }

  lemma NoDates(c: Config)
    ensures Dates(c, []) == {}
  {
  }

  /** The old ids stay and every bar's id is new. */
  ghost predicate SeenGrows(c: Config, u: Ingestor, bars: seq<Prepared>, w: Ingestor) {
    && (forall id :: id in u.seen ==> id in w.seen && w.seen[id] == u.seen[id])
    && (forall i :: 0 <= i < |bars| ==> bars[i].event.id !in u.seen && bars[i].event.id in w.seen && w.seen[bars[i].event.id] == DateOf(c, bars[i]))
    && (forall id :: id in w.seen && id !in u.seen ==> w.seen[id] in Dates(c, bars))
  }

  ghost predicate SlotsGrow(c: Config, u: Ingestor, bars: seq<Prepared>, w: Ingestor) {
    && (forall k :: k in u.slots ==> k in w.slots)
    && (forall k :: k in w.slots ==> (k in u.slots && w.slots[k] == u.slots[k]) || w.slots[k].session in Dates(c, bars))
  }

  lemma {:induction false} StoredEntries(c: Config, u: Ingestor, bars: seq<Prepared>)
    requires NewBars(c, u, bars)
    ensures SeenGrows(c, u, bars, StoreAll(c, u, bars)) && SlotsGrow(c, u, bars, StoreAll(c, u, bars))
    decreases |bars|
  {
    if bars != [] {
      var v := Applied(c, u, bars[0]);
      StoredEntries(c, v, bars[1..]);
      FirstDate(c, bars);
      OneMoreEntry(c, u, bars, StoreAll(c, v, bars[1..]));
    }
  }

  lemma OneMoreEntry(c: Config, u: Ingestor, bars: seq<Prepared>, w: Ingestor)
    requires bars != [] && NewBar(c, u, bars[0]) && Dates(c, bars) == {DateOf(c, bars[0])} + Dates(c, bars[1..])
    requires SeenGrows(c, Applied(c, u, bars[0]), bars[1..], w) && SlotsGrow(c, Applied(c, u, bars[0]), bars[1..], w)
    ensures SeenGrows(c, u, bars, w) && SlotsGrow(c, u, bars, w)
  {
    hide Put, GroupOf, Compare, Dates;
    var v := Applied(c, u, bars[0]);
    assert v.seen == u.seen[bars[0].event.id := DateOf(c, bars[0])];
    forall i | 0 <= i < |bars|
      ensures bars[i].event.id !in u.seen && bars[i].event.id in w.seen && w.seen[bars[i].event.id] == DateOf(c, bars[i])
    {
      if i > 0 { assert bars[1..][i - 1] == bars[i]; }
    }
  }

  // ---- shard heads ---------------------------------------------------------------------------------

  lemma {:induction false} StoringNeverRewinds(c: Config, u: Ingestor, bars: seq<Prepared>, shard: string)
    requires NewBars(c, u, bars) && shard in u.heads
    ensures shard in StoreAll(c, u, bars).heads && NotBehind(u.heads[shard], StoreAll(c, u, bars).heads[shard])
    decreases |bars|
  {
    if bars != [] {
      hide Put, GroupOf, SlotOf, KeyOf;
      StoringNeverRewinds(c, Applied(c, u, bars[0]), bars[1..], shard);
    }
  }

  ghost predicate NoneAhead(heads: map<string, Option<Position>>, bars: seq<Prepared>) {
    forall i :: 0 <= i < |bars| ==> bars[i].shard in heads && Compare(heads[bars[i].shard], PositionOf(bars[i].event)) != ADVANCED
  }

  lemma NoneAheadFirst(heads: map<string, Option<Position>>, bars: seq<Prepared>)
    requires bars != []
    ensures NoneAhead(heads, bars) <==>
            bars[0].shard in heads && Compare(heads[bars[0].shard], PositionOf(bars[0].event)) != ADVANCED && NoneAhead(heads, bars[1..])
  {
    hide Compare, PositionOf;
    assert forall i :: 0 < i < |bars| ==> bars[1..][i - 1] == bars[i];
    assert forall i :: 0 <= i < |bars| - 1 ==> bars[1..][i] == bars[i + 1];
  }

  lemma {:induction false} HeadsStayExactly(c: Config, u: Ingestor, bars: seq<Prepared>)
    requires NewBars(c, u, bars)
    ensures StoreAll(c, u, bars).heads == u.heads <==> NoneAhead(u.heads, bars)
    decreases |bars|
  {
    if bars != [] {
      hide NoneAhead, Put, GroupOf, SlotOf, KeyOf;
      var p, v := bars[0], Applied(c, u, bars[0]);
      NoneAheadFirst(u.heads, bars);
      HeadsStayExactly(c, v, bars[1..]);
      StoringNeverRewinds(c, v, bars[1..], p.shard);
    }
  }

  // ---- buffered rows ----------------------------------------------------------------------------------

  function RowAt(b: map<GroupKey, map<SlotKey, Row>>, g: GroupKey, k: SlotKey): Option<Row> {
    if g in b && k in b[g] then Some(b[g][k]) else None
  }

  /** What the bars put last at a place of the buffer. */
  function LastRow(c: Config, bars: seq<Prepared>, g: GroupKey, k: SlotKey): Option<Row> {
    if bars == [] then None
    else
      var later := LastRow(c, bars[1..], g, k);
      if later.Some? then later
      else if bars[0].Accepted? && KeyOf(bars[0].event) == k && GroupOf(c, k) == g then Some(bars[0].row) else None
  }

  ghost predicate AlreadyBuffered(c: Config, s: Ingestor, bars: seq<Prepared>) {
    forall g, k :: LastRow(c, bars, g, k).Some? ==> RowAt(s.buffer, g, k) == LastRow(c, bars, g, k)
  }

  /** w's rows are u's with the bars' put over them. */
  ghost predicate PutsOver(c: Config, u: Ingestor, bars: seq<Prepared>, w: Ingestor) {
    && (forall g, k :: RowAt(w.buffer, g, k) == if LastRow(c, bars, g, k).Some? then LastRow(c, bars, g, k) else RowAt(u.buffer, g, k))
    && u.buffer.Keys <= w.buffer.Keys && forall g :: g in w.buffer ==> g in u.buffer || w.buffer[g] != map[]
  }

  lemma {:induction false} StoredRows(c: Config, u: Ingestor, bars: seq<Prepared>)
    requires NewBars(c, u, bars)
    ensures PutsOver(c, u, bars, StoreAll(c, u, bars))
    decreases |bars|
  {
    if bars != [] {
      hide PutsOver, Compare, GroupOf, SlotOf, KeyOf, Applied;
      var v := Applied(c, u, bars[0]);
      StoredRows(c, v, bars[1..]);
      PutOneOver(c, u, bars, StoreAll(c, v, bars[1..]));
    } else {
      hide NewBars;
    }
  }

  lemma PutOneOver(c: Config, u: Ingestor, bars: seq<Prepared>, w: Ingestor)
    requires bars != [] && NewBar(c, u, bars[0]) && PutsOver(c, Applied(c, u, bars[0]), bars[1..], w)
    ensures PutsOver(c, u, bars, w)
  {
    hide Compare, GroupOf, SlotOf, LastRow;
    var k, v := KeyOf(bars[0].event), Applied(c, u, bars[0]);
    hide KeyOf;
    PutFiled(c, u.buffer, k, bars[0].row);
    assert forall g, j :: RowAt(v.buffer, g, j) == if (g, j) == (GroupOf(c, k), k) then Some(bars[0].row) else RowAt(u.buffer, g, j);
    LastRowFirst(c, bars);
    assert v.buffer.Keys == u.buffer.Keys + {GroupOf(c, k)};
    forall g | g in w.buffer && g !in u.buffer ensures w.buffer[g] != map[] {
      if g == GroupOf(c, k) { assert RowAt(w.buffer, g, k).Some?; }
    }
  }

  lemma LastRowFirst(c: Config, bars: seq<Prepared>)
    requires bars != [] && bars[0].Accepted?
    ensures forall g, k :: LastRow(c, bars, g, k) ==
              if LastRow(c, bars[1..], g, k).Some? then LastRow(c, bars[1..], g, k)
              else if KeyOf(bars[0].event) == k && GroupOf(c, k) == g then Some(bars[0].row) else None
  {
    hide GroupOf, KeyOf;
  }

  lemma BufferStaysExactly(c: Config, u: Ingestor, bars: seq<Prepared>, w: Ingestor)
    requires PutsOver(c, u, bars, w)
    ensures w.buffer == u.buffer <==> AlreadyBuffered(c, u, bars)
  {
    hide LastRow;
    if AlreadyBuffered(c, u, bars) {
      assert forall g, k :: RowAt(w.buffer, g, k) == RowAt(u.buffer, g, k);
      forall g | g in w.buffer ensures g in u.buffer {
        if w.buffer[g] != map[] {
          var k :| k in w.buffer[g];
          assert RowAt(u.buffer, g, k) == RowAt(w.buffer, g, k);
        }
      }
      forall g | g in u.buffer ensures w.buffer[g] == u.buffer[g] {
        forall k ensures k in w.buffer[g] <==> k in u.buffer[g] {
          assert RowAt(w.buffer, g, k) == RowAt(u.buffer, g, k);
        }
        forall k | k in u.buffer[g] ensures w.buffer[g][k] == u.buffer[g][k] {
          assert RowAt(w.buffer, g, k) == RowAt(u.buffer, g, k);
        }
      }
    }
  }

  // ---- exactly when nothing is torn ---------------------------------------------------------------------

  /** The stopped batch left no trace: retention dropped nothing that was remembered and
      every one of the batch's bars, whose rows were buffered already and whose positions
      moved no head. */
  ghost predicate LeavesNoTrace(c: Config, s: Ingestor, bars: seq<Prepared>, refused: Prepared) {
    var top := Newest(Sessions(s) + Dates(c, bars) + {DateOf(c, refused)}, c.retention);
    && Sessions(s) <= top && Dates(c, bars) !! top
    && AlreadyBuffered(c, s, bars) && NoneAhead(s.heads, bars)
  }

  lemma KeptEntries(s: Ingestor, w: Ingestor, top: set<Date>)
    requires Only(w, top).seen == s.seen && Only(w, top).slots == s.slots
    ensures Sessions(s) <= top
  {
    forall d | d in Sessions(s) ensures d in top {
      if id :| id in s.seen && s.seen[id] == d {
        assert id in Only(w, top).seen;
      } else {
        var k :| k in s.slots && s.slots[k].session == d;
        assert k in Only(w, top).slots;
      }
    }
  }

  lemma NothingCut(c: Config, s: Ingestor, bars: seq<Prepared>, w: Ingestor, top: set<Date>)
    requires SeenGrows(c, s, bars, w) && SlotsGrow(c, s, bars, w) && SlotsDated(c, s) && SlotsDated(c, w)
    requires Sessions(s) <= top && Dates(c, bars) !! top
    ensures Only(w, top).seen == s.seen && Only(w, top).slots == s.slots
  {
    assert forall id :: id in s.seen ==> s.seen[id] in Sessions(s);
    assert forall k :: k in s.slots ==> s.slots[k].session in Sessions(s);
    hide Sessions, Dates;
    assert forall k :: k in s.slots ==> w.slots[k] == s.slots[k];
  }

  lemma CutStaysExactly(c: Config, s: Ingestor, bars: seq<Prepared>, w: Ingestor, top: set<Date>)
    requires SeenGrows(c, s, bars, w) && SlotsGrow(c, s, bars, w) && SlotsDated(c, s) && SlotsDated(c, w)
    ensures Only(w, top).seen == s.seen && Only(w, top).slots == s.slots <==> Sessions(s) <= top && Dates(c, bars) !! top
  {
    hide Sessions, SlotsDated;
    if Only(w, top).seen == s.seen && Only(w, top).slots == s.slots {
      KeptEntries(s, w, top);
      forall d | d in Dates(c, bars) ensures d !in top {
        var i :| 0 <= i < |bars| && d == DateOf(c, bars[i]);
        assert bars[i].event.id !in Only(w, top).seen;
      }
    }
    if Sessions(s) <= top && Dates(c, bars) !! top { NothingCut(c, s, bars, w, top); }
  }

  /** The ledger's exception is the one hole in all-or-nothing. A batch it stops leaves the
      ingestor as it was exactly when it leaves no trace. */
  lemma UndeclaredShardTearsBatch(c: Config, s: Ingestor, events: seq<Parsed>)
    requires SlotsDated(c, s) && PrepareAll(c, s, NOTHING, events).Ok? && SubmitBatch(c, s, events).Raised?
    ensures var course := CourseOf(s.heads.Keys, PrepareAll(c, s, NOTHING, events).value);
            && course.refused.Some?
            && (SubmitBatch(c, s, events).after == s <==> LeavesNoTrace(c, s, course.bars, course.refused.value))
  {
    hide SubmitBatch, PrepareAll, Sessions, Newest, SlotsDated, NoneAhead, AlreadyBuffered, NewBars, SeenGrows,
      SlotsGrow, PutsOver, CourseOf, StoreAll;
    StoppedBatchIsOneCut(c, s, events);
    var course := CourseOf(s.heads.Keys, PrepareAll(c, s, NOTHING, events).value);
    var w := StoreAll(c, s, course.bars);
    var top := Newest(Sessions(w) + {DateOf(c, course.refused.value)}, c.retention);
    StoredDates(c, s, course.bars);
    StoredEntries(c, s, course.bars);
    StoredRows(c, s, course.bars);
    HeadsStayExactly(c, s, course.bars);
    BufferStaysExactly(c, s, course.bars, w);
    CutStaysExactly(c, s, course.bars, w, top);
  }

  /** When the refused bar is the batch's first, all that has happened is its retention;
      so the state is as it was exactly when every remembered session is still among the
      newest. */
  lemma FirstBarRefused(c: Config, s: Ingestor, events: seq<Parsed>)
    requires SlotsDated(c, s) && PrepareAll(c, s, NOTHING, events).Ok? && SubmitBatch(c, s, events).Raised?
    requires CourseOf(s.heads.Keys, PrepareAll(c, s, NOTHING, events).value).bars == []
    ensures var course := CourseOf(s.heads.Keys, PrepareAll(c, s, NOTHING, events).value);
            && course.refused.Some?
            && var d := DateOf(c, course.refused.value);
               && SubmitBatch(c, s, events).after == Retain(c, s, d)
               && (SubmitBatch(c, s, events).after == s <==> Sessions(s) <= Newest(Sessions(s) + {d}, c.retention))
  {
    hide SubmitBatch, PrepareAll, Sessions, Newest, SlotsDated, Retain, Only, CourseOf;
    StoppedBatchIsOneCut(c, s, events);
    UndeclaredShardTearsBatch(c, s, events);
    var d := DateOf(c, CourseOf(s.heads.Keys, PrepareAll(c, s, NOTHING, events).value).refused.value);
    RetainIsCut(c, s, d);
    NoDates(c);
    assert Sessions(s) + Dates(c, []) == Sessions(s);
  }

  /** While every session fits, any bar stored before the refused one is a trace. */
  lemma WithoutEvictionAnyBarIsATrace(c: Config, s: Ingestor, bars: seq<Prepared>, refused: Prepared)
    requires |Sessions(s) + Dates(c, bars) + {DateOf(c, refused)}| <= c.retention
    ensures LeavesNoTrace(c, s, bars, refused) <==> bars == []
  {
    hide Sessions, DateOf;
    var all := Sessions(s) + Dates(c, bars) + {DateOf(c, refused)};
    forall d | d in all ensures d in Newest(all, c.retention) { NewestKeepsRecent(all, c.retention, d); }
    if bars != [] { assert DateOf(c, bars[0]) in Dates(c, bars); }
  }

  // ---- a torn batch ---------------------------------------------------------------------------------------

  /** A declared shard's bar followed by an undeclared one's: an empty ingestor keeps the
      first row of the refused batch. */
  lemma TornBatch(c: Config, heads: map<string, Option<Position>>, a: Parsed, b: Parsed)
    requires MayBecomeBar(c, a) && MayBecomeBar(c, b)
    requires ShardsKnown(c, heads, Admit(c, a).value) && BarRow(c, Admit(c, b).value).Some? && c.shardOf(Admit(c, b).value.instrument) !in heads
    requires Admit(c, a).value.id != Admit(c, b).value.id && KeyOf(Admit(c, a).value) != KeyOf(Admit(c, b).value)
    ensures SubmitBatch(c, Empty(heads), [a, b]).Raised? && SubmitBatch(c, Empty(heads), [a, b]).after != Empty(heads)
  {
    var s, ea, eb := Empty(heads), Admit(c, a).value, Admit(c, b).value;
    hide Admit, BarRow, SubmitBatch, PrepareAll, LastRow, CourseOf, LeavesNoTrace, CommitAll, MayBecomeBar, KeyOf,
      GroupOf;
    var pa, pb := AsBar(c, ea), AsBar(c, eb);
    TwoPrepared(c, s, a, b);
    CourseOfTwo(heads.Keys, pa, pb);
    TwoStopped(c, s, pa, pb);
    assert SlotsDated(c, s);
    assert SubmitBatch(c, s, [a, b]).Raised? by { BatchCommits(c, s, [a, b], [pa, pb]); }
    UndeclaredShardTearsBatch(c, s, [a, b]);
    OneRow(c, pa);
    NothingBuffered(c, heads, pa, pb);
  }

  lemma TwoPrepared(c: Config, s: Ingestor, a: Parsed, b: Parsed)
    requires MayBecomeBar(c, a) && MayBecomeBar(c, b) && s.seen == map[] && s.slots == map[]
    requires Admit(c, a).value.instrument in c.symbols && BarRow(c, Admit(c, a).value).Some?
    requires Admit(c, b).value.instrument in c.symbols && BarRow(c, Admit(c, b).value).Some?
    requires Admit(c, a).value.id != Admit(c, b).value.id && KeyOf(Admit(c, a).value) != KeyOf(Admit(c, b).value)
    ensures PrepareAll(c, s, NOTHING, [a, b]) == Ok([AsBar(c, Admit(c, a).value), AsBar(c, Admit(c, b).value)])
  {
    var pa, pb := AsBar(c, Admit(c, a).value), AsBar(c, Admit(c, b).value);
    hide Admit, BarRow, PrepareAll;
    assert [a, b] == [a] + ([b] + []) && [pa] + ([pb] + []) == [pa, pb];
    assert Prepare(c, s, NOTHING, a) == Ok(pa);
    assert Prepare(c, s, Absorb(c, NOTHING, pa), b) == Ok(pb);
    hide Prepare, Absorb, KeyOf, AsBar, MayBecomeBar;
    EmptyCalls(c, s, Absorb(c, Absorb(c, NOTHING, pa), pb), s);
    PrepareCons(c, s, Absorb(c, NOTHING, pa), b, [], pb);
    PrepareCons(c, s, NOTHING, a, [b] + [], pa);
  }

  lemma CourseOfTwo(shards: set<string>, pa: Prepared, pb: Prepared)
    requires pa.Accepted? && pb.Accepted? && pa.shard in shards && pb.shard !in shards
    ensures CourseOf(shards, [pa, pb]) == Course([pa], Some(pb))
  {
    assert [pa, pb][1..] == [pb];
  }

  lemma TwoStopped(c: Config, s: Ingestor, pa: Prepared, pb: Prepared)
    requires pb.Accepted? && pb.shard !in s.heads
    ensures CommitAll(c, s, [pa, pb]).Raised?
  {
    hide CommitAll;
    CommitAllSucceeds(c, s, [pa, pb]);
    assert [pa, pb][1] == pb;
  }

  lemma BatchCommits(c: Config, s: Ingestor, events: seq<Parsed>, items: seq<Prepared>)
    requires PrepareAll(c, s, NOTHING, events) == Ok(items)
    ensures SubmitBatch(c, s, events) == CommitAll(c, s, items)
  {
    hide PrepareAll, CommitAll;
  }

  lemma NothingBuffered(c: Config, heads: map<string, Option<Position>>, pa: Prepared, pb: Prepared)
    requires pa.Accepted? && LastRow(c, [pa], GroupOf(c, KeyOf(pa.event)), KeyOf(pa.event)).Some?
    ensures !LeavesNoTrace(c, Empty(heads), [pa], pb)
  {
    hide LastRow, Sessions, Newest, NoneAhead, GroupOf, KeyOf;
    assert RowAt(Empty(heads).buffer, GroupOf(c, KeyOf(pa.event)), KeyOf(pa.event)).None?;
  }

  lemma OneRow(c: Config, p: Prepared)
    requires p.Accepted?
    ensures LastRow(c, [p], GroupOf(c, KeyOf(p.event)), KeyOf(p.event)) == Some(p.row)
  {
    hide GroupOf, KeyOf;
    assert [p][1..] == [];
  }

  // ---- where batch and one-by-one submission part ----------------------------------------------------------

  /** The event speaks of something forgotten: it repeats a forgotten id, or it does not
      outrank a forgotten slot. u is the state without eviction. */
  predicate SpeaksOfForgotten(c: Config, u: Ingestor, t: Ingestor, parsed: Parsed) {
    MayBecomeBar(c, parsed) &&
    var e := Admit(c, parsed).value;
    if e.id in u.seen then e.id !in t.seen
    else KeyOf(e) in u.slots && KeyOf(e) !in t.slots && e.revision <= u.slots[KeyOf(e)].revision
  }

  lemma JudgedAlikeExactly(c: Config, u: Ingestor, t: Ingestor, parsed: Parsed)
    requires Remains(u, t)
    ensures Prepare(c, u, NOTHING, parsed) == Prepare(c, t, NOTHING, parsed) <==> !SpeaksOfForgotten(c, u, t, parsed)
  {
    hide Admit, BarRow;
  }

  /** No event speaks of something retention had forgotten by the time it came. */
  ghost predicate NoneForgotten(c: Config, u: Ingestor, t: Ingestor, events: seq<Parsed>)
    decreases |events|
  {
    events == [] ||
    (!SpeaksOfForgotten(c, u, t, events[0]) &&
     match Prepare(c, t, NOTHING, events[0])
     case Err(_) => true
     case Ok(p) =>
       match Commit(c, t, p)
       case Raised(_, _) => true
       case Returned(after, _) => NoneForgotten(c, StoreAll(c, u, [p]), after, events[1..]))
  }

  lemma CommitRemains(c: Config, s: Ingestor, o: Overlay, u: Ingestor, t: Ingestor, p: Prepared)
    requires Simulates(s, o, u) && Remains(u, t) && t.heads.Keys == u.heads.Keys && Commit(c, t, p).Returned?
    ensures var after, v := Commit(c, t, p).after, StoreAll(c, u, [p]);
            Simulates(s, Absorb(c, o, p), v) && Remains(v, after) && after.heads.Keys == v.heads.Keys
  {
    hide Retain, Applied, Absorb, Simulates, Remains, StoreAll;
    OneStored(c, u, p);
    RetainKeepsShards(c, t, p);
    CommitKeepsShards(c, t, p);
    if p.Rejected? {
      NothingAbsorbed(c, o, p);
    } else {
      RetainRemains(c, u, t, DateOf(c, p));
      AppliedSimulates(c, s, o, u, p);
      SameShards(c, u, p);
      AppliedRemains(c, u, Retain(c, t, DateOf(c, p)), p);
    }
  }

  lemma AppliedRemains(c: Config, u: Ingestor, t: Ingestor, p: Prepared)
    requires Remains(u, t) && p.Accepted? && p.shard in u.heads && p.shard in t.heads
    ensures Remains(Applied(c, u, p), Applied(c, t, p))
  {
    hide Put, GroupOf, Compare;
  }

  lemma OneStored(c: Config, u: Ingestor, p: Prepared)
    ensures StoreAll(c, u, [p]) == if p.Accepted? && p.shard in u.heads then Applied(c, u, p) else u
  {
    hide Applied;
    assert [p][1..] == [];
  }

  lemma RetainRemains(c: Config, u: Ingestor, t: Ingestor, d: Date)
    requires Remains(u, t)
    ensures Remains(u, Retain(c, t, d))
  {
    hide Newest, Sessions;
  }

  lemma {:induction false} EndsAlike(c: Config, s: Ingestor, o: Overlay, u: Ingestor, t: Ingestor, events: seq<Parsed>)
    requires Simulates(s, o, u) && Remains(u, t) && t.heads.Keys == u.heads.Keys && NoneForgotten(c, u, t, events)
    ensures SameEnding(BatchFrom(c, s, o, t, events), SubmitEach(c, t, events))
    decreases |events|
  {
    if events != [] {
      OverlayDecidesAlike(c, s, o, u, events[0]);
      JudgedAlikeExactly(c, u, t, events[0]);
      hide Prepare, Commit, Simulates, Absorb, Remains, SpeaksOfForgotten;
      match Prepare(c, t, NOTHING, events[0]) {
        case Err(_) =>
        case Ok(p) =>
          match Commit(c, t, p) {
            case Raised(_, _) => CommitStops(c, t, p, s, Absorb(c, o, p), events[1..]);
            case Returned(after, d) =>
              CommitRemains(c, s, o, u, t, p);
              EndsAlike(c, s, Absorb(c, o, p), StoreAll(c, u, [p]), after, events[1..]);
              BatchStep(c, s, o, t, events, p, after, d);
          }
      }
    }
  }

  /** Judged apart, the two ways cannot report the same first decision. */
  lemma ApartAtOnce(c: Config, u: Ingestor, t: Ingestor, parsed: Parsed)
    requires Remains(u, t) && SpeaksOfForgotten(c, u, t, parsed) && Prepare(c, u, NOTHING, parsed).Ok?
    ensures var p, each := Prepare(c, u, NOTHING, parsed).value, Submit(c, t, parsed);
            p.Rejected? && (each.Returned? ==> each.value.reason != p.reason)
  {
    hide Admit, BarRow, Retain, Applied, Compare;
  }

  lemma {:induction false} PartsExactly(c: Config, s: Ingestor, o: Overlay, u: Ingestor, t: Ingestor,
                                        events: seq<Parsed>)
    requires Simulates(s, o, u) && Remains(u, t) && t.heads.Keys == u.heads.Keys
    requires BatchFrom(c, s, o, t, events).Returned? && BatchFrom(c, s, o, t, events) == SubmitEach(c, t, events)
    ensures NoneForgotten(c, u, t, events)
    decreases |events|
  {
    if events != [] {
      hide Prepare, Commit, Simulates, Absorb, Remains, SpeaksOfForgotten, PrepareAll, CommitAll, SubmitEach, StoreAll;
      var p := FirstAlike(c, s, o, t, events);
      OverlayDecidesAlike(c, s, o, u, events[0]);
      JudgedAlikeExactly(c, u, t, events[0]);
      if SpeaksOfForgotten(c, u, t, events[0]) { ApartAtOnce(c, u, t, events[0]); }
      CommitRemains(c, s, o, u, t, p);
      PartsExactly(c, s, Absorb(c, o, p), StoreAll(c, u, [p]), Commit(c, t, p).after, events[1..]);
    }
  }

  /** Two ways that end alike report the first event alike; one that is judged alike too
      leaves them to end alike after it. */
  lemma FirstAlike(c: Config, s: Ingestor, o: Overlay, t: Ingestor, events: seq<Parsed>) returns (p: Prepared)
    requires events != []
    requires BatchFrom(c, s, o, t, events).Returned? && BatchFrom(c, s, o, t, events) == SubmitEach(c, t, events)
    ensures Prepare(c, s, o, events[0]) == Ok(p) && Commit(c, t, p).Returned?
    ensures Submit(c, t, events[0]).Returned? && Submit(c, t, events[0]).value == Commit(c, t, p).value
    ensures p.Rejected? ==> Commit(c, t, p).value.reason == p.reason
    ensures Prepare(c, t, NOTHING, events[0]) == Ok(p) ==>
              && BatchFrom(c, s, Absorb(c, o, p), Commit(c, t, p).after, events[1..]).Returned?
              && BatchFrom(c, s, Absorb(c, o, p), Commit(c, t, p).after, events[1..]) == SubmitEach(c, Commit(c, t, p).after, events[1..])
  {
    hide Prepare, Absorb, Applied, Retain, CommitAll, SubmitEach, Compare;
    p := Prepare(c, s, o, events[0]).value;
    var items := PrepareAll(c, s, Absorb(c, o, p), events[1..]).value;
    FirstOfBatch(c, t, p, items);
    FirstOfEach(c, t, events);
    var mine, each := Commit(c, t, p), Submit(c, t, events[0]);
    SameHeadAndTail(mine.value, CommitAll(c, mine.after, items).value, each.value,
      SubmitEach(c, each.after, events[1..]).value);
  }

  lemma SameHeadAndTail<T>(x: T, s: seq<T>, y: T, t: seq<T>)
    requires [x] + s == [y] + t
    ensures x == y && s == t
  {
    assert ([x] + s)[0] == x && ([y] + t)[0] == y;
    assert ([x] + s)[1..] == s && ([y] + t)[1..] == t;
  }

  lemma FirstOfBatch(c: Config, t: Ingestor, p: Prepared, items: seq<Prepared>)
    requires CommitAll(c, t, [p] + items).Returned?
    ensures Commit(c, t, p).Returned? && CommitAll(c, Commit(c, t, p).after, items).Returned?
    ensures CommitAll(c, t, [p] + items)
         == Returned(CommitAll(c, Commit(c, t, p).after, items).after, [Commit(c, t, p).value] + CommitAll(c, Commit(c, t, p).after, items).value)
  {
    hide Commit;
    assert ([p] + items)[1..] == items;
  }

  lemma FirstOfEach(c: Config, t: Ingestor, events: seq<Parsed>)
    requires events != [] && SubmitEach(c, t, events).Returned?
    ensures Submit(c, t, events[0]).Returned? && SubmitEach(c, Submit(c, t, events[0]).after, events[1..]).Returned?
    ensures var step := Submit(c, t, events[0]);
            SubmitEach(c, t, events) == Returned(SubmitEach(c, step.after, events[1..]).after, [step.value] + SubmitEach(c, step.after, events[1..]).value)
  {
    hide Submit;
  }

  /** A batch that goes through ends as one-by-one submission does exactly when no event
      speaks of something retention had forgotten on the way. A batch that is refused is
      refused one by one too, unless some event does. */
  lemma BatchEqualsOneByOneExactly(c: Config, s: Ingestor, events: seq<Parsed>)
    ensures SubmitBatch(c, s, events).Returned? ==>
              (SameEnding(SubmitBatch(c, s, events), SubmitEach(c, s, events)) <==> NoneForgotten(c, s, s, events))
    ensures NoneForgotten(c, s, s, events) ==> SameEnding(SubmitBatch(c, s, events), SubmitEach(c, s, events))
  {
    hide PrepareAll, CommitAll, SubmitEach, NoneForgotten;
    assert Simulates(s, NOTHING, s) && Remains(s, s);
    if NoneForgotten(c, s, s, events) { EndsAlike(c, s, NOTHING, s, s, events); }
    if SubmitBatch(c, s, events).Returned? && SameEnding(SubmitBatch(c, s, events), SubmitEach(c, s, events)) {
      PartsExactly(c, s, NOTHING, s, s, events);
    }
  }
}
