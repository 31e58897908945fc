/** Whole-message ingestion: all or nothing, and no different from submitting the
    events one by one. */
module IngestBatch {
  import opened Common
  import opened Partitions
  import opened Ingest

  // ---- sessions a call can touch ------------------------------------------------------------

  /** The event turns into a bar unless something held stands in its way. */
  predicate MayBecomeBar(c: Config, parsed: Parsed) {
    Admit(c, parsed).Ok? && Admit(c, parsed).value.eventType == c.eventType
  }

  function SessionOf(c: Config, parsed: Parsed): Date
    requires Admit(c, parsed).Ok?
  {
    c.sessionOf(Admit(c, parsed).value.occurredAt)
  }

  function WireSessions(c: Config, events: seq<Parsed>): set<Date> {
    set i | 0 <= i < |events| && MayBecomeBar(c, events[i]) :: SessionOf(c, events[i])
  }

  /** The dates held and the dates arriving all fit the retention window. */
  predicate NothingEvicted(c: Config, s: Ingestor, events: seq<Parsed>) {
    |Sessions(s) + WireSessions(c, events)| <= c.retention
  }

  lemma AppliedSessions(c: Config, s: Ingestor, p: Prepared)
    requires p.Accepted? && p.shard in s.heads
    ensures Sessions(Applied(c, s, p)) <= Sessions(s) + {c.sessionOf(p.event.occurredAt)}
  {
    hide GroupOf, Put, Compare;
    var t, d := Applied(c, s, p), c.sessionOf(p.event.occurredAt);
    forall x | x in Sessions(t) ensures x in Sessions(s) + {d} {
      if x in t.seen.Values {
        var id :| id in t.seen && t.seen[id] == x;
        if id != p.event.id { assert id in s.seen && s.seen[id] == x; }
      } else {
        var k :| k in t.slots && t.slots[k].session == x;
        if k != KeyOf(p.event) { assert k in s.slots && s.slots[k].session == x; }
      }
    }
  }

  /** While everything fits, retention drops nothing. */
  lemma RetainKeeps(c: Config, s: Ingestor, d: Date, bound: set<Date>)
    requires Sessions(s) <= bound && d in bound && |bound| <= c.retention
    ensures Retain(c, s, d) == s
  {
    SubsetSize(Sessions(s) + {d}, bound);
  }

  // ---- the overlay -------------------------------------------------------------------------------

  /** t is the ingestor s would be after committing what the overlay stands for. */
  ghost predicate Simulates(s: Ingestor, o: Overlay, t: Ingestor) {
    && (forall id :: id in t.seen <==> id in s.seen || id in o.ids)
    && t.slots == s.slots + o.slots
    && t.heads.Keys == s.heads.Keys
  }

  lemma OverlayDecidesAlike(c: Config, s: Ingestor, o: Overlay, t: Ingestor, parsed: Parsed)
    requires Simulates(s, o, t)
    ensures Prepare(c, s, o, parsed) == Prepare(c, t, NOTHING, parsed)
  {
    hide Judge;
    match Admit(c, parsed)
    case Err(_) =>
    case Ok(e) =>
      assert Held(s, o, KeyOf(e)) == Held(t, NOTHING, KeyOf(e));
      assert e.id in s.seen || e.id in o.ids <==> e.id in t.seen || e.id in NOTHING.ids;
  }

  lemma AppliedSimulates(c: Config, s: Ingestor, o: Overlay, t: Ingestor, p: Prepared)
    requires Simulates(s, o, t) && p.Accepted? && p.shard in t.heads
    ensures Simulates(s, Absorb(c, o, p), Applied(c, t, p))
  {
    hide Put, GroupOf, Compare;
    var u := Applied(c, t, p);
    assert u.slots == s.slots + Absorb(c, o, p).slots;
    assert u.heads.Keys == t.heads.Keys;
  }

  lemma AcceptedIsSomeBar(c: Config, s: Ingestor, o: Overlay, parsed: Parsed)
    requires Prepare(c, s, o, parsed).Ok? && Prepare(c, s, o, parsed).value.Accepted?
    ensures MayBecomeBar(c, parsed) && Prepare(c, s, o, parsed).value.event == Admit(c, parsed).value
    ensures Prepare(c, s, o, parsed).value.event.id !in s.seen
    ensures SessionOf(c, parsed) in WireSessions(c, [parsed])
  {
    hide BarRow, Admit;
    assert [parsed][0] == parsed;
  }

  lemma OverlayFollowsCommit(c: Config, s: Ingestor, o: Overlay, t: Ingestor, parsed: Parsed, bound: set<Date>)
    requires Simulates(s, o, t) && Prepare(c, s, o, parsed).Ok?
    requires Sessions(t) <= bound && WireSessions(c, [parsed]) <= bound && |bound| <= c.retention
    ensures var p, done := Prepare(c, s, o, parsed).value, Commit(c, t, Prepare(c, s, o, parsed).value);
            && (done.Raised? <==> p.Accepted? && p.shard !in s.heads)
            && (done.Raised? ==> done.after == t && done.why == UnknownShard)
            && (done.Returned? ==> Simulates(s, Absorb(c, o, p), done.after) && Sessions(done.after) <= bound)
  {
    hide Prepare, Applied, Sessions, WireSessions, Retain, Compare;
    var p := Prepare(c, s, o, parsed).value;
    if p.Accepted? {
      AcceptedIsSomeBar(c, s, o, parsed);
      RetainKeeps(c, t, SessionOf(c, parsed), bound);
      if p.shard in t.heads {
        AppliedSessions(c, t, p);
        AppliedSimulates(c, s, o, t, p);
      }
    }
  }

  // ---- refinement ----------------------------------------------------------------------------------

  /** What the two ways of submitting share: the same success, state and decisions. */
  ghost predicate SameEnding(a: Ending<seq<Decision>>, b: Ending<seq<Decision>>) {
    && (a.Returned? <==> b.Returned?)
    && (a.Returned? ==> a == b)
  }

  function BatchFrom(c: Config, s: Ingestor, o: Overlay, t: Ingestor, events: seq<Parsed>): Ending<seq<Decision>> {
    match PrepareAll(c, s, o, events)
    case Err(why) => Raised(s, why)
    case Ok(items) => CommitAll(c, t, items)
  }

  lemma {:induction false} OverlaySimulatesRun(
    c: Config, s: Ingestor, o: Overlay, t: Ingestor, events: seq<Parsed>, bound: set<Date>)
    requires Simulates(s, o, t)
    requires Sessions(t) <= bound && WireSessions(c, events) <= bound && |bound| <= c.retention
    ensures SameEnding(BatchFrom(c, s, o, t, events), SubmitEach(c, t, events))
    decreases |events|
  {
    if events != [] {
      OverlayDecidesAlike(c, s, o, t, events[0]);
      match Prepare(c, s, o, events[0]) {
        case Err(_) =>
        case Ok(p) =>
          assert WireSessions(c, [events[0]]) <= bound by { FirstSession(c, events); }
          assert WireSessions(c, events[1..]) <= bound by { LaterSessions(c, events); }
          hide Prepare, Commit, WireSessions, Simulates, Absorb;
          OverlayFollowsCommit(c, s, o, t, events[0], bound);
          match Commit(c, t, p) {
            case Raised(_, _) => CommitStops(c, t, p, s, Absorb(c, o, p), events[1..]);
            case Returned(u, d) =>
              OverlaySimulatesRun(c, s, Absorb(c, o, p), u, events[1..], bound);
              BatchStep(c, s, o, t, events, p, u, d);
          }
      }
    }
  }

  lemma FirstSession(c: Config, events: seq<Parsed>)
    requires events != []
    ensures WireSessions(c, [events[0]]) <= WireSessions(c, events)
  {
    hide Admit;
    assert forall i :: 0 <= i < 1 ==> [events[0]][i] == events[i];
  }

  lemma LaterSessions(c: Config, events: seq<Parsed>)
    requires events != []
    ensures WireSessions(c, events[1..]) <= WireSessions(c, events)
  {
    hide Admit;
    forall i | 0 <= i < |events| - 1 && MayBecomeBar(c, events[1..][i])
      ensures SessionOf(c, events[1..][i]) in WireSessions(c, events)
    {
      assert events[1..][i] == events[i + 1];
    }
  }

  lemma CommitStops(c: Config, t: Ingestor, p: Prepared, s: Ingestor, o: Overlay, rest: seq<Parsed>)
    requires Commit(c, t, p).Raised?
    ensures PrepareAll(c, s, o, rest).Ok? ==> CommitAll(c, t, [p] + PrepareAll(c, s, o, rest).value).Raised?
  {
    hide Commit, PrepareAll;
  }

  lemma BatchStep(c: Config, s: Ingestor, o: Overlay, t: Ingestor, events: seq<Parsed>, p: Prepared, u: Ingestor,
                  d: Decision)
    requires events != [] && Prepare(c, s, o, events[0]) == Ok(p) && Prepare(c, t, NOTHING, events[0]) == Ok(p)
    requires Commit(c, t, p) == Returned(u, d)
    requires SameEnding(BatchFrom(c, s, Absorb(c, o, p), u, events[1..]), SubmitEach(c, u, events[1..]))
    ensures SameEnding(BatchFrom(c, s, o, t, events), SubmitEach(c, t, events))
  {
    hide Prepare, Commit, Absorb;
    assert Submit(c, t, events[0]) == Commit(c, t, p);
    var rest := PrepareAll(c, s, Absorb(c, o, p), events[1..]);
    if rest.Ok? {
      assert PrepareAll(c, s, o, events) == Ok([p] + rest.value);
      assert ([p] + rest.value)[1..] == rest.value;
    }
  }

  /** A batch succeeds exactly when submitting its events one by one does, with the same
      state and the same decisions, as long as nothing is evicted on the way. */
  lemma BatchEqualsOneByOne(c: Config, s: Ingestor, events: seq<Parsed>)
    requires NothingEvicted(c, s, events)
    ensures SameEnding(SubmitBatch(c, s, events), SubmitEach(c, s, events))
  {
    hide PrepareAll, CommitAll, WireSessions, Sessions;
    OverlaySimulatesRun(c, s, NOTHING, s, events, Sessions(s) + WireSessions(c, events));
  }

  // ---- all or nothing ------------------------------------------------------------------------------------

  /** Every mapped instrument's shard is one the ledger was declared with. */
  ghost predicate ShardsDeclared(c: Config, s: Ingestor) {
    forall i :: i in c.symbols ==> c.shardOf(i) in s.heads
  }

  lemma CommitKeepsShards(c: Config, s: Ingestor, p: Prepared)
    ensures Commit(c, s, p).after.heads.Keys == s.heads.Keys
  {
    hide Put, GroupOf, Newest, Compare;
  }

  lemma {:induction false} CommitAllSucceeds(c: Config, s: Ingestor, items: seq<Prepared>)
    ensures CommitAll(c, s, items).Returned? <==>
            forall i :: 0 <= i < |items| && items[i].Accepted? ==> items[i].shard in s.heads
    ensures CommitAll(c, s, items).Raised? ==> CommitAll(c, s, items).why == UnknownShard
    decreases |items|
  {
    hide Applied, Retain;
    if items != [] {
      CommitKeepsShards(c, s, items[0]);
      var step := Commit(c, s, items[0]);
      assert step.Raised? <==> items[0].Accepted? && items[0].shard !in s.heads by { RetainKeepsShards(c, s, items[0]); }
      if step.Returned? {
        CommitAllSucceeds(c, step.after, items[1..]);
        assert forall i :: 0 < i < |items| ==> items[i] == items[1..][i - 1];
        assert forall i :: 0 <= i < |items[1..]| ==> items[1..][i] == items[i + 1];
      }
    }
  }

  lemma RetainKeepsShards(c: Config, s: Ingestor, p: Prepared)
    ensures Retain(c, s, c.sessionOf(p.event.occurredAt)).heads == s.heads
  {
  }

  lemma {:induction false} PreparedShards(c: Config, s: Ingestor, o: Overlay, events: seq<Parsed>)
    requires ShardsDeclared(c, s) && PrepareAll(c, s, o, events).Ok?
    ensures forall i :: 0 <= i < |events| ==> PrepareAll(c, s, o, events).value[i].shard in s.heads
    decreases |events|
  {
    hide Prepare, Absorb;
    if events != [] {
      PreparedShards(c, s, Absorb(c, o, Prepare(c, s, o, events[0]).value), events[1..]);
    }
  }

  /** A batch is refused exactly when one of its events is, and then nothing changed:
      no bar, no remembered id, no slot, no shard head, no eviction. */
  lemma RefusedBatchChangesNothing(c: Config, s: Ingestor, events: seq<Parsed>)
    requires ShardsDeclared(c, s)
    ensures SubmitBatch(c, s, events).Raised? <==> PrepareAll(c, s, NOTHING, events).Err?
    ensures SubmitBatch(c, s, events).Raised? ==> SubmitBatch(c, s, events).after == s
  {
    hide CommitAll;
    if PrepareAll(c, s, NOTHING, events).Ok? {
      PreparedShards(c, s, NOTHING, events);
      CommitAllSucceeds(c, s, PrepareAll(c, s, NOTHING, events).value);
    }
  }

  // ---- where eviction makes the difference ------------------------------------------------------------

  function Empty(heads: map<string, Option<Position>>): Ingestor {
    Ingestor(map[], map[], map[], heads)
  }

  lemma OneDateKept(first: Date, latest: Date)
    requires first < latest
    ensures Newest({first, latest}, 1) == {latest}
  {
    assert Newer({first, latest}, first) == {latest} && Newer({first, latest}, latest) == {};
  }

  lemma CommitFirstBar(c: Config, heads: map<string, Option<Position>>, p: Prepared)
    requires p.Accepted? && p.shard in heads && c.retention == 1
    ensures var e, done := p.event, Commit(c, Empty(heads), p);
            && done.Returned? && done.value.accepted && done.after.heads.Keys == heads.Keys
            && done.after.seen == map[e.id := c.sessionOf(e.occurredAt)]
            && done.after.slots == map[KeyOf(e) := SlotOf(c, e)]
  {
    hide GroupOf, Put, Compare;
    assert Sessions(Empty(heads)) == {};
  }

  lemma RetainDropsOlder(c: Config, s: Ingestor, a: Event, latest: Date)
    requires c.retention == 1 && c.sessionOf(a.occurredAt) < latest
    requires s.seen == map[a.id := c.sessionOf(a.occurredAt)] && s.slots == map[KeyOf(a) := SlotOf(c, a)]
    ensures Retain(c, s, latest) == s.(seen := map[], slots := map[])
  {
    hide Newest;
    var first := c.sessionOf(a.occurredAt);
    assert a.id in s.seen && KeyOf(a) in s.slots;
    assert s.seen.Values == {first};
    assert (set k | k in s.slots :: s.slots[k].session) == {first};
    assert Sessions(s) + {latest} == {first, latest};
    OneDateKept(first, latest);
  }

  lemma CommitNewerBar(c: Config, s: Ingestor, a: Event, p: Prepared)
    requires p.Accepted? && p.shard in s.heads && c.retention == 1
    requires s.seen == map[a.id := c.sessionOf(a.occurredAt)] && s.slots == map[KeyOf(a) := SlotOf(c, a)]
    requires c.sessionOf(a.occurredAt) < c.sessionOf(p.event.occurredAt)
    ensures var e, done := p.event, Commit(c, s, p);
            && done.Returned? && done.value.accepted && done.after.heads.Keys == s.heads.Keys
            && done.after.seen == map[e.id := c.sessionOf(e.occurredAt)]
            && done.after.slots == map[KeyOf(e) := SlotOf(c, e)]
  {
    hide GroupOf, Put, Compare, Retain, SlotOf, KeyOf;
    RetainDropsOlder(c, s, a, c.sessionOf(p.event.occurredAt));
  }

  lemma PrepareCons(c: Config, s: Ingestor, o: Overlay, parsed: Parsed, rest: seq<Parsed>, p: Prepared)
    requires Prepare(c, s, o, parsed) == Ok(p)
    ensures PrepareAll(c, s, Absorb(c, o, p), rest).Ok? ==>
            PrepareAll(c, s, o, [parsed] + rest) == Ok([p] + PrepareAll(c, s, Absorb(c, o, p), rest).value)
  {
    hide Prepare, Absorb;
    assert ([parsed] + rest)[1..] == rest;
  }

  lemma CommitCons(c: Config, s: Ingestor, p: Prepared, rest: seq<Prepared>)
    requires Commit(c, s, p).Returned?
    ensures var step, all := Commit(c, s, p), CommitAll(c, s, [p] + rest);
            CommitAll(c, step.after, rest).Returned? ==>
            all.Returned? && all.value == [step.value] + CommitAll(c, step.after, rest).value
  {
    hide Commit;
    assert ([p] + rest)[1..] == rest;
  }

  lemma EachCons(c: Config, s: Ingestor, parsed: Parsed, rest: seq<Parsed>)
    requires Submit(c, s, parsed).Returned?
    ensures var step, all := Submit(c, s, parsed), SubmitEach(c, s, [parsed] + rest);
            SubmitEach(c, step.after, rest).Returned? ==>
            all.Returned? && all.value == [step.value] + SubmitEach(c, step.after, rest).value
  {
    hide Submit;
    assert ([parsed] + rest)[1..] == rest;
  }

  ghost predicate ShardsKnown(c: Config, heads: map<string, Option<Position>>, e: Event) {
    e.instrument in c.symbols && BarRow(c, e).Some? && c.shardOf(e.instrument) in heads
  }

  function AsBar(c: Config, e: Event): Prepared
    requires e.instrument in c.symbols && BarRow(c, e).Some?
  {
    Accepted(e, c.shardOf(e.instrument), BarRow(c, e).value)
  }

  /** With a one-session window, a bar of one session, a bar of the next and the first
      bar again: the batch reports a duplicate, one by one it is ingested anew. */
  lemma EvictionBreaksRefinement(c: Config, heads: map<string, Option<Position>>, a: Parsed, b: Parsed)
    requires c.retention == 1 && MayBecomeBar(c, a) && MayBecomeBar(c, b)
    requires ShardsKnown(c, heads, Admit(c, a).value) && ShardsKnown(c, heads, Admit(c, b).value)
    requires SessionOf(c, a) < SessionOf(c, b) && Admit(c, a).value.id != Admit(c, b).value.id
    ensures var batch, each := SubmitBatch(c, Empty(heads), [a, b, a]), SubmitEach(c, Empty(heads), [a, b, a]);
            && batch.Returned? && batch.value[2].reason == DUPLICATE_EVENT
            && each.Returned? && each.value[2].accepted
  {
    var ea, eb := Admit(c, a).value, Admit(c, b).value;
    hide Admit;
    assert [a, b, a] == [a] + ([b] + ([a] + []));
    DuplicateInBatch(c, heads, a, b, ea, eb);
    AcceptedOneByOne(c, heads, a, b, ea, eb);
  }

  lemma DuplicateInBatch(c: Config, heads: map<string, Option<Position>>, a: Parsed, b: Parsed, ea: Event, eb: Event)
    requires c.retention == 1 && Admit(c, a) == Ok(ea) && Admit(c, b) == Ok(eb) && MayBecomeBar(c, a) && MayBecomeBar(c, b)
    requires ShardsKnown(c, heads, ea) && ShardsKnown(c, heads, eb)
    requires SessionOf(c, a) < SessionOf(c, b) && ea.id != eb.id
    ensures var batch := SubmitBatch(c, Empty(heads), [a] + ([b] + ([a] + [])));
            batch.Returned? && batch.value[2].reason == DUPLICATE_EVENT
  {
    hide Admit, BarRow, Applied, Retain, Sessions, PrepareAll, CommitAll;
    var s, pa, pb := Empty(heads), AsBar(c, ea), AsBar(c, eb);
    var again := Rejected(ea, pa.shard, DUPLICATE_EVENT);
    var o1 := Absorb(c, NOTHING, pa);
    var o2 := Absorb(c, o1, pb);
    assert Prepare(c, s, NOTHING, a) == Ok(pa);
    assert Prepare(c, s, o1, b) == Ok(pb);
    assert Prepare(c, s, o2, a) == Ok(again);
    CommitFirstBar(c, heads, pa);
    var t1 := Commit(c, s, pa).after;
    CommitNewerBar(c, t1, ea, pb);
    var t2 := Commit(c, t1, pb).after;
    assert Commit(c, t2, again) == Returned(t2, Report(again, false, DUPLICATE_EVENT, None));
    hide Prepare, Commit, Absorb;
    PrepareCons(c, s, o2, a, [], again);
    PrepareCons(c, s, o1, b, [a] + [], pb);
    PrepareCons(c, s, NOTHING, a, [b] + ([a] + []), pa);
    CommitCons(c, t2, again, []);
    CommitCons(c, t1, pb, [again] + []);
    CommitCons(c, s, pa, [pb] + ([again] + []));
    assert PrepareAll(c, s, Absorb(c, o2, again), []) == Ok([]) && CommitAll(c, t2, []).Returned? by { EmptyCalls(c, s, Absorb(c, o2, again), t2); }
  }

  lemma EmptyCalls(c: Config, s: Ingestor, o: Overlay, t: Ingestor)
    ensures PrepareAll(c, s, o, []) == Ok([]) && CommitAll(c, t, []) == Returned(t, []) && SubmitEach(c, t, []) == Returned(t, [])
  {
  }

  lemma AcceptedOneByOne(c: Config, heads: map<string, Option<Position>>, a: Parsed, b: Parsed, ea: Event, eb: Event)
    requires c.retention == 1 && Admit(c, a) == Ok(ea) && Admit(c, b) == Ok(eb) && MayBecomeBar(c, a) && MayBecomeBar(c, b)
    requires ShardsKnown(c, heads, ea) && ShardsKnown(c, heads, eb)
    requires SessionOf(c, a) < SessionOf(c, b) && ea.id != eb.id
    ensures var each := SubmitEach(c, Empty(heads), [a] + ([b] + ([a] + [])));
            each.Returned? && each.value[2].accepted
  {
    hide Admit, BarRow, Applied, Sessions, SubmitEach;
    var s, pa, pb := Empty(heads), AsBar(c, ea), AsBar(c, eb);
    assert Prepare(c, s, NOTHING, a) == Ok(pa);
    CommitFirstBar(c, heads, pa);
    var t1 := Commit(c, s, pa).after;
    assert Prepare(c, t1, NOTHING, b) == Ok(pb);
    CommitNewerBar(c, t1, ea, pb);
    var t2 := Commit(c, t1, pb).after;
    assert Prepare(c, t2, NOTHING, a) == Ok(pa);
    RetainKeepsShards(c, t2, pa);
    assert Commit(c, t2, pa).Returned? && Commit(c, t2, pa).value.accepted;
    var t3 := Commit(c, t2, pa).after;
    hide Prepare, Commit;
    EachCons(c, t2, a, []);
    EachCons(c, t1, b, [a] + []);
    EachCons(c, s, a, [b] + ([a] + []));
    EmptyCalls(c, s, NOTHING, t3);
  }
}
