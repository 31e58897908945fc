/** Reordered and duplicated deliveries end in the same bars: for every bar the highest
    revision delivered. */
module IngestConvergence {
  import opened Common
  import opened Ingest
  import opened IngestBatch
  import opened IngestRuns

  function BarOf(c: Config, parsed: Parsed): Event
    requires Admit(c, parsed).Ok?
  {
    Admit(c, parsed).value
  }

  /** The event is a bar of this stream that can be built and stored. */
  predicate IsBar(c: Config, shards: set<string>, parsed: Parsed): (bar: bool)
    ensures bar ==> Admit(c, parsed).Ok?
  {
    MayBecomeBar(c, parsed) && Storable(c, shards, BarOf(c, parsed))
  }

  predicate Storable(c: Config, shards: set<string>, e: Event) {
    e.instrument in c.symbols && BarRow(c, e).Some? && c.shardOf(e.instrument) in shards
  }

  /** The bars a delivery sequence carries. */
  function Bars(c: Config, shards: set<string>, events: seq<Parsed>): set<Event> {
    set i | 0 <= i < |events| && IsBar(c, shards, events[i]) :: BarOf(c, events[i])
  }

  /** Deliveries one by one; a refused event is reported and the run goes on. */
  function Run(c: Config, s: Ingestor, events: seq<Parsed>): Ingestor {
    if events == [] then s else Submit(c, Run(c, s, events[..|events| - 1]), events[|events| - 1]).after
  }

  ghost predicate Compatible(a: Event, b: Event) {
    && (a.id == b.id ==> a == b)
    && (KeyOf(a) == KeyOf(b) && a.revision == b.revision ==> a == b)
  }

  /** An event id is the hash of its content, and no two events claim one bar at one
      revision. */
  ghost predicate Consistent(bars: set<Event>) {
    forall a, b :: a in bars && b in bars ==> Compatible(a, b)
  }

  predicate Buffered(t: Ingestor, g: GroupKey, k: SlotKey, row: Row) {
    g in t.buffer && k in t.buffer[g] && t.buffer[g][k] == row
  }

  /** What is held for the bar of e is exactly e: its slot, and its row in its group. */
  ghost predicate Holds(c: Config, t: Ingestor, e: Event) {
    && KeyOf(e) in t.slots && t.slots[KeyOf(e)] == SlotOf(c, e)
    && e.instrument in c.symbols && BarRow(c, e).Some?
    && Buffered(t, GroupOf(c, KeyOf(e)), KeyOf(e), BarRow(c, e).value)
  }

  ghost predicate HeldFrom(c: Config, bars: set<Event>, t: Ingestor, k: SlotKey) {
    exists e :: e in bars && KeyOf(e) == k && Holds(c, t, e)
  }

  ghost predicate Delivered(bars: set<Event>, id: string) {
    exists e :: e in bars && e.id == id
  }

  ghost predicate Covers(t: Ingestor, e: Event) {
    KeyOf(e) in t.slots && t.slots[KeyOf(e)].revision >= e.revision
  }

  ghost predicate BufferHasSlots(t: Ingestor) {
    forall g, k :: g in t.buffer && k in t.buffer[g] ==> k in t.slots
  }

  /** Where delivering these bars to an empty ingestor leads: for every bar the highest
      revision delivered, in slot and buffer, and nothing else. */
  ghost predicate Converged(c: Config, bars: set<Event>, t: Ingestor) {
    && (forall k :: k in t.slots ==> HeldFrom(c, bars, t, k))
    && (forall e :: e in bars ==> Covers(t, e))
    && BufferHasSlots(t) && Filed(c, t)
  }

  ghost predicate Bookkeeping(bars: set<Event>, dates: set<Date>, shards: set<string>, t: Ingestor) {
    && (forall id :: id in t.seen ==> Delivered(bars, id))
    && Sessions(t) <= dates
    && t.heads.Keys == shards
  }

  // ---- one more delivery -----------------------------------------------------------------------

  ghost predicate Takes(c: Config, t: Ingestor, parsed: Parsed) {
    Prepare(c, t, NOTHING, parsed).Ok? && Prepare(c, t, NOTHING, parsed).value.Accepted?
  }

  lemma TakesBars(c: Config, t: Ingestor, parsed: Parsed)
    requires Takes(c, t, parsed)
    ensures MayBecomeBar(c, parsed) && BarRow(c, BarOf(c, parsed)).Some?
    ensures var e := BarOf(c, parsed);
            && Prepare(c, t, NOTHING, parsed).value == Accepted(e, c.shardOf(e.instrument), BarRow(c, e).value)
            && (KeyOf(e) in t.slots ==> t.slots[KeyOf(e)].revision < e.revision)
  {
    hide Admit, BarRow;
  }

  /** A delivery that is not taken changes nothing, and when it is a bar, what is held
      already covers it. */
  lemma NotTaken(c: Config, t: Ingestor, parsed: Parsed)
    requires !Takes(c, t, parsed)
    ensures Submit(c, t, parsed).after == t
    ensures IsBar(c, t.heads.Keys, parsed) ==> BarOf(c, parsed).id in t.seen || Covers(t, BarOf(c, parsed))
  {
    hide Admit, BarRow;
  }

  lemma TakenApplies(c: Config, t: Ingestor, parsed: Parsed, dates: set<Date>)
    requires Takes(c, t, parsed) && Sessions(t) <= dates && |dates| <= c.retention
    requires MayBecomeBar(c, parsed) && SessionOf(c, parsed) in dates
    ensures !IsBar(c, t.heads.Keys, parsed) ==> Submit(c, t, parsed).after == t
    ensures IsBar(c, t.heads.Keys, parsed) ==>
            && Prepare(c, t, NOTHING, parsed).value.shard in t.heads
            && Submit(c, t, parsed).after == Applied(c, t, Prepare(c, t, NOTHING, parsed).value)
  {
    TakesBars(c, t, parsed);
    hide Prepare, Admit, BarRow, Retain, Applied, Sessions;
    RetainKeeps(c, t, SessionOf(c, parsed), dates);
  }

  lemma OneMoreBar(c: Config, shards: set<string>, events: seq<Parsed>, parsed: Parsed)
    ensures Bars(c, shards, events + [parsed]) == Bars(c, shards, events) + (if IsBar(c, shards, parsed) then {BarOf(c, parsed)} else {})
    ensures WireSessions(c, events) <= WireSessions(c, events + [parsed])
    ensures MayBecomeBar(c, parsed) ==> SessionOf(c, parsed) in WireSessions(c, events + [parsed])
  {
    var all := events + [parsed];
    hide IsBar, MayBecomeBar, SessionOf, BarOf;
    assert forall i :: 0 <= i < |events| ==> all[i] == events[i];
    assert all[|events|] == parsed;
  }

  lemma StillHeld(c: Config, bars: set<Event>, more: set<Event>, t: Ingestor)
    requires bars <= more
    ensures forall k :: HeldFrom(c, bars, t, k) ==> HeldFrom(c, more, t, k)
    ensures forall id :: Delivered(bars, id) ==> Delivered(more, id)
  {
    hide Holds;
  }

  lemma DuplicateIsCovered(c: Config, bars: set<Event>, e: Event, t: Ingestor)
    requires (forall f :: f in bars ==> Covers(t, f)) && Consistent(bars + {e}) && Delivered(bars, e.id)
    ensures Covers(t, e)
  {
    var f :| f in bars && f.id == e.id;
    assert Compatible(f, e);
  }

  lemma UnchangedConverges(c: Config, bars: set<Event>, e: Event, t: Ingestor)
    requires Converged(c, bars, t) && Consistent(bars + {e})
    requires e.id in t.seen ==> Delivered(bars, e.id)
    requires e.id in t.seen || Covers(t, e)
    ensures Converged(c, bars + {e}, t)
  {
    hide Filed, HeldFrom, BufferHasSlots, Covers, Consistent, Delivered;
    if e.id in t.seen { DuplicateIsCovered(c, bars, e, t); }
    forall k | k in t.slots ensures HeldFrom(c, bars + {e}, t, k) { StillHeld(c, bars, bars + {e}, t); }
  }

  /** Storing one bar leaves every other bar's slot and row alone. */
  lemma AppliedHolds(c: Config, t: Ingestor, p: Prepared, e: Event)
    requires p.Accepted? && p.shard in t.heads
    ensures Holds(c, t, e) && KeyOf(e) != KeyOf(p.event) ==> Holds(c, Applied(c, t, p), e)
    ensures p.event.instrument in c.symbols && BarRow(c, p.event) == Some(p.row) ==> Holds(c, Applied(c, t, p), p.event)
  {
    PutFiled(c, t.buffer, KeyOf(p.event), p.row);
    hide Put, GroupOf, BarRow, Compare;
  }

  lemma TakenFiles(c: Config, t: Ingestor, p: Prepared)
    requires Filed(c, t) && BufferHasSlots(t) && p.Accepted? && p.shard in t.heads
    ensures Filed(c, Applied(c, t, p)) && BufferHasSlots(Applied(c, t, p))
  {
    var u, k := Applied(c, t, p), KeyOf(p.event);
    PutFiled(c, t.buffer, k, p.row);
    hide Put, GroupOf, Compare;
    forall g | g in u.buffer ensures u.buffer[g] != map[] {
      if g == GroupOf(c, k) { assert k in u.buffer[g]; }
    }
  }

  lemma OtherStaysHeld(c: Config, bars: set<Event>, t: Ingestor, p: Prepared, k: SlotKey)
    requires p.Accepted? && p.shard in t.heads && HeldFrom(c, bars, t, k) && k != KeyOf(p.event)
    ensures HeldFrom(c, bars + {p.event}, Applied(c, t, p), k)
  {
    hide Applied, Holds;
    var e :| e in bars && KeyOf(e) == k && Holds(c, t, e);
    AppliedHolds(c, t, p, e);
    assert e in bars + {p.event};
  }

  lemma TakenConverges(c: Config, bars: set<Event>, t: Ingestor, p: Prepared)
    requires Converged(c, bars, t) && p.Accepted? && p.shard in t.heads
    requires p.event.instrument in c.symbols && BarRow(c, p.event) == Some(p.row)
    requires KeyOf(p.event) in t.slots ==> t.slots[KeyOf(p.event)].revision < p.event.revision
    ensures Converged(c, bars + {p.event}, Applied(c, t, p))
  {
    var u, e := Applied(c, t, p), p.event;
    TakenFiles(c, t, p);
    AppliedHolds(c, t, p, e);
    hide Filed, BufferHasSlots, Put, GroupOf, Compare, BarRow;
    assert HeldFrom(c, bars + {e}, u, KeyOf(e)) by { assert e in bars + {e}; }
    forall k | k in u.slots && k != KeyOf(e) ensures HeldFrom(c, bars + {e}, u, k) {
      OtherStaysHeld(c, bars, t, p, k);
    }
    hide Holds, HeldFrom;
    forall f | f in bars + {e} ensures Covers(u, f) {
      assert f != e ==> Covers(t, f);
    }
  }

  lemma TakenBookkeeping(c: Config, bars: set<Event>, dates: set<Date>, shards: set<string>, t: Ingestor, p: Prepared)
    requires Bookkeeping(bars, dates, shards, t) && p.Accepted? && p.shard in t.heads
    requires c.sessionOf(p.event.occurredAt) in dates
    ensures Bookkeeping(bars + {p.event}, dates, shards, Applied(c, t, p))
  {
    var u := Applied(c, t, p);
    AppliedSessions(c, t, p);
    hide Sessions, Put, GroupOf, Compare;
    forall id | id in u.seen ensures Delivered(bars + {p.event}, id) {
      if id == p.event.id {
        assert p.event in bars + {p.event};
      } else {
        StillHeld(c, bars, bars + {p.event}, t);
      }
    }
    assert u.heads.Keys == t.heads.Keys;
  }

  lemma DeliverOne(c: Config, bars: set<Event>, more: set<Event>, dates: set<Date>, shards: set<string>, parsed: Parsed,
                   t: Ingestor)
    requires Converged(c, bars, t) && Bookkeeping(bars, dates, shards, t)
    requires more == bars + (if IsBar(c, shards, parsed) then {BarOf(c, parsed)} else {}) && Consistent(more)
    requires |dates| <= c.retention && (MayBecomeBar(c, parsed) ==> SessionOf(c, parsed) in dates)
    ensures Converged(c, more, Submit(c, t, parsed).after) && Bookkeeping(more, dates, shards, Submit(c, t, parsed).after)
  {
    StillHeld(c, bars, more, t);
    if Takes(c, t, parsed) {
      TakesBars(c, t, parsed);
      TakenApplies(c, t, parsed, dates);
      hide Submit, Prepare, Converged, Consistent, Admit, Applied, Sessions, BarRow, Delivered;
      if IsBar(c, shards, parsed) {
        var p := Prepare(c, t, NOTHING, parsed).value;
        TakenConverges(c, bars, t, p);
        TakenBookkeeping(c, bars, dates, shards, t, p);
      }
    } else {
      NotTaken(c, t, parsed);
      hide Submit, Prepare, Converged, Consistent, Admit, Sessions, BarRow, Delivered, IsBar, Takes;
      if IsBar(c, shards, parsed) { UnchangedConverges(c, bars, BarOf(c, parsed), t); }
    }
  }

  lemma WiderBooks(bars: set<Event>, dates: set<Date>, wider: set<Date>, shards: set<string>, t: Ingestor)
    requires Bookkeeping(bars, dates, shards, t) && dates <= wider
    ensures Bookkeeping(bars, wider, shards, t)
  {
  }

  /** Every delivery sequence converges. */
  lemma {:induction false} RunConverges(c: Config, heads: map<string, Option<Position>>, events: seq<Parsed>)
    requires Consistent(Bars(c, heads.Keys, events)) && |WireSessions(c, events)| <= c.retention
    ensures Converged(c, Bars(c, heads.Keys, events), Run(c, Empty(heads), events))
    ensures Bookkeeping(Bars(c, heads.Keys, events), WireSessions(c, events), heads.Keys, Run(c, Empty(heads), events))
    decreases |events|
  {
    hide Converged, Bookkeeping, Consistent, WireSessions, Submit, Bars, IsBar, MayBecomeBar, Sessions;
    if events == [] {
      NothingDelivered(c, heads);
    } else {
      var n := |events| - 1;
      var front, last := events[..n], events[n];
      assert events == front + [last];
      OneMoreBar(c, heads.Keys, front, last);
      SubsetSize(WireSessions(c, front), WireSessions(c, events));
      FewerAreConsistent(Bars(c, heads.Keys, front), Bars(c, heads.Keys, events));
      RunConverges(c, heads, front);
      var t := Run(c, Empty(heads), front);
      WiderBooks(Bars(c, heads.Keys, front), WireSessions(c, front), WireSessions(c, events), heads.Keys, t);
      DeliverOne(c, Bars(c, heads.Keys, front), Bars(c, heads.Keys, events), WireSessions(c, events), heads.Keys, last,
        t);
    }
  }

  lemma NothingDelivered(c: Config, heads: map<string, Option<Position>>)
    ensures Converged(c, Bars(c, heads.Keys, []), Empty(heads))
    ensures Bookkeeping(Bars(c, heads.Keys, []), WireSessions(c, []), heads.Keys, Empty(heads))
  {
    assert Sessions(Empty(heads)) == {};
  }

  lemma FewerAreConsistent(fewer: set<Event>, bars: set<Event>)
    requires Consistent(bars) && fewer <= bars
    ensures Consistent(fewer)
  {
    hide Compatible;
  }

  // ---- what convergence means ---------------------------------------------------------------------------

  /** A bar is held exactly when some revision of it was delivered, and what slot and
      buffer hold is the highest revision delivered. */
  lemma HighestRevisionIsHeld(c: Config, heads: map<string, Option<Position>>, events: seq<Parsed>)
    requires Consistent(Bars(c, heads.Keys, events)) && |WireSessions(c, events)| <= c.retention
    ensures var bars, t := Bars(c, heads.Keys, events), Run(c, Empty(heads), events);
            && (forall k :: k in t.slots <==> exists e :: e in bars && KeyOf(e) == k)
            && (forall e :: e in bars && Top(bars, e) ==> Holds(c, t, e))
  {
    RunConverges(c, heads, events);
    var bars, t := Bars(c, heads.Keys, events), Run(c, Empty(heads), events);
    hide Run, Bars, WireSessions, Bookkeeping, Filed, BufferHasSlots, GroupOf, BarRow, Holds, KeyOf, SlotOf;
    forall k ensures k in t.slots <==> exists e :: e in bars && KeyOf(e) == k {
      if e :| e in bars && KeyOf(e) == k { assert Covers(t, e); }
      if k in t.slots { assert HeldFrom(c, bars, t, k); }
    }
    forall e | e in bars && Top(bars, e) ensures Holds(c, t, e) { TopIsHeld(c, bars, t, e); }
  }

  ghost predicate Top(bars: set<Event>, e: Event) {
    forall f :: f in bars && KeyOf(f) == KeyOf(e) ==> f.revision <= e.revision
  }

  lemma TopIsHeld(c: Config, bars: set<Event>, t: Ingestor, e: Event)
    requires Converged(c, bars, t) && Consistent(bars) && e in bars && Top(bars, e)
    ensures Holds(c, t, e)
  {
    hide Filed, BufferHasSlots, GroupOf, BarRow, Buffered;
    assert Covers(t, e);
    assert HeldFrom(c, bars, t, KeyOf(e));
    var f :| f in bars && KeyOf(f) == KeyOf(e) && Holds(c, t, f);
    assert Compatible(e, f);
  }

  lemma SameHeld(c: Config, bars: set<Event>, t: Ingestor, u: Ingestor, k: SlotKey) returns (e: Event)
    requires Consistent(bars) && Converged(c, bars, t) && Converged(c, bars, u) && k in t.slots
    ensures KeyOf(e) == k && Holds(c, t, e) && Holds(c, u, e)
  {
    hide GroupOf, BarRow, Filed, Buffered, BufferHasSlots;
    assert HeldFrom(c, bars, t, k);
    e :| e in bars && KeyOf(e) == k && Holds(c, t, e);
    assert Covers(u, e);
    assert HeldFrom(c, bars, u, k);
    var f :| f in bars && KeyOf(f) == k && Holds(c, u, f);
    assert Covers(t, f);
    assert Compatible(e, f);
  }

  ghost predicate Within(t: Ingestor, u: Ingestor) {
    && (forall k :: k in t.slots ==> k in u.slots && u.slots[k] == t.slots[k])
    && (forall g :: g in t.buffer ==> g in u.buffer)
    && (forall g, k :: g in t.buffer && k in t.buffer[g] ==> Buffered(u, g, k, t.buffer[g][k]))
  }

  lemma HeldWithin(c: Config, bars: set<Event>, t: Ingestor, u: Ingestor)
    requires Consistent(bars) && Converged(c, bars, t) && Converged(c, bars, u)
    ensures Within(t, u)
  {
    hide Consistent, GroupOf, BarRow, HeldFrom, SlotOf, Covers;
    forall k | k in t.slots ensures k in u.slots && u.slots[k] == t.slots[k] {
      var _ := SameHeld(c, bars, t, u, k);
    }
    forall g, k | g in t.buffer && k in t.buffer[g] ensures Buffered(u, g, k, t.buffer[g][k]) {
      var _ := SameHeld(c, bars, t, u, k);
      assert g == GroupOf(c, k);
    }
    forall g | g in t.buffer ensures g in u.buffer {
      var k :| k in t.buffer[g];
      assert Buffered(u, g, k, t.buffer[g][k]);
    }
  }

  lemma SameGroup(t: Ingestor, u: Ingestor, g: GroupKey)
    requires Within(t, u) && Within(u, t) && g in t.buffer && g in u.buffer
    ensures t.buffer[g] == u.buffer[g]
  {
    forall k ensures k in t.buffer[g] <==> k in u.buffer[g] {
      if k in t.buffer[g] { assert Buffered(u, g, k, t.buffer[g][k]); }
      if k in u.buffer[g] { assert Buffered(t, g, k, u.buffer[g][k]); }
    }
    forall k | k in t.buffer[g] ensures t.buffer[g][k] == u.buffer[g][k] {
      assert Buffered(u, g, k, t.buffer[g][k]);
    }
  }

  lemma MutualWithin(t: Ingestor, u: Ingestor)
    requires Within(t, u) && Within(u, t)
    ensures t.slots == u.slots && t.buffer == u.buffer
  {
    hide Buffered;
    assert t.buffer.Keys == u.buffer.Keys;
    forall g | g in t.buffer ensures t.buffer[g] == u.buffer[g] { SameGroup(t, u, g); }
  }

  lemma SameState(c: Config, bars: set<Event>, t: Ingestor, u: Ingestor)
    requires Consistent(bars) && Converged(c, bars, t) && Converged(c, bars, u)
    ensures t.slots == u.slots && t.buffer == u.buffer
  {
    hide Consistent, Converged, Within;
    HeldWithin(c, bars, t, u);
    HeldWithin(c, bars, u, t);
    MutualWithin(t, u);
  }

  /** Order and duplication do not matter: the same bars delivered, the same slots and
      the same buffered rows held. */
  lemma DeliveryOrderIsIrrelevant(c: Config, heads: map<string, Option<Position>>, one: seq<Parsed>, two: seq<Parsed>)
    requires Consistent(Bars(c, heads.Keys, one)) && Bars(c, heads.Keys, one) == Bars(c, heads.Keys, two)
    requires |WireSessions(c, one)| <= c.retention && |WireSessions(c, two)| <= c.retention
    ensures Run(c, Empty(heads), one).slots == Run(c, Empty(heads), two).slots
    ensures Run(c, Empty(heads), one).buffer == Run(c, Empty(heads), two).buffer
  {
    hide Consistent, Converged, Run, Bars, WireSessions, Bookkeeping;
    RunConverges(c, heads, one);
    RunConverges(c, heads, two);
    SameState(c, Bars(c, heads.Keys, one), Run(c, Empty(heads), one), Run(c, Empty(heads), two));
  }
}
