/** What does depend on the order of delivery: the remembered ids and the shard heads, and
    exactly when they do not. */
module IngestOrder {
  import opened Common
  import opened Ingest
  import opened IngestBatch
  import opened IngestRuns
  import opened IngestConvergence

  // ---- the accepted bars decide --------------------------------------------------------------

  /** The bars a run takes in. */
  ghost function Accepted(c: Config, s: Ingestor, events: seq<Parsed>): set<Event> {
    if events == [] then {}
    else
      var n := |events| - 1;
      Accepted(c, s, events[..n]) +
      (if IsBar(c, s.heads.Keys, events[n]) && Takes(c, Run(c, s, events[..n]), events[n]) then {BarOf(c, events[n])} else {})
  }

  /** h is the furthest of where the head began and the given positions. */
  ghost predicate IsHead(init: Option<Position>, bars: set<Event>, c: Config, shard: string, h: Option<Position>) {
    && NotBehind(init, h)
    && (forall e :: e in bars && c.shardOf(e.instrument) == shard ==> NotBehind(Some(PositionOf(e)), h))
    && (h == init || exists e :: e in bars && c.shardOf(e.instrument) == shard && h == Some(PositionOf(e)))
  }

  ghost predicate HeadsFollow(c: Config, heads: map<string, Option<Position>>, bars: set<Event>, t: Ingestor) {
    t.heads.Keys == heads.Keys && forall shard :: shard in heads ==> IsHead(heads[shard], bars, c, shard, t.heads[shard])
  }

  ghost predicate SeenFollows(c: Config, bars: set<Event>, t: Ingestor) {
    && (forall e :: e in bars ==> e.id in t.seen && t.seen[e.id] == c.sessionOf(e.occurredAt))
    && (forall id :: id in t.seen ==> Delivered(bars, id))
    && (forall k :: k in t.slots ==> t.slots[k].id in t.seen)
  }

  lemma StoredFollows(c: Config, heads: map<string, Option<Position>>, bars: set<Event>, t: Ingestor, p: Prepared)
    requires HeadsFollow(c, heads, bars, t) && p.Accepted? && p.shard in t.heads && p.shard == c.shardOf(p.event.instrument)
    ensures HeadsFollow(c, heads, bars + {p.event}, Applied(c, t, p))
  {
    hide Put, GroupOf, SlotOf, KeyOf, PositionOf;
    var u := Applied(c, t, p);
    forall shard | shard in heads ensures IsHead(heads[shard], bars + {p.event}, c, shard, u.heads[shard]) {
      assert IsHead(heads[shard], bars, c, shard, t.heads[shard]);
      if shard == p.shard && Compare(t.heads[shard], PositionOf(p.event)) == ADVANCED {
        assert p.event in bars + {p.event};
      } else if t.heads[shard] != heads[shard] {
        var e :| e in bars && c.shardOf(e.instrument) == shard && t.heads[shard] == Some(PositionOf(e));
        assert e in bars + {p.event};
      }
    }
  }

  lemma StoredIsSeen(c: Config, bars: set<Event>, t: Ingestor, p: Prepared)
    requires SeenFollows(c, bars, t) && p.Accepted? && p.shard in t.heads && p.event.id !in t.seen
    ensures SeenFollows(c, bars + {p.event}, Applied(c, t, p))
  {
    hide Put, GroupOf, Compare, KeyOf;
    assert p.event in bars + {p.event};
    forall id | Delivered(bars, id) ensures Delivered(bars + {p.event}, id) {
      var e :| e in bars && e.id == id;
      assert e in bars + {p.event};
    }
  }

  lemma TakenIsNew(c: Config, t: Ingestor, parsed: Parsed)
    requires Takes(c, t, parsed)
    ensures Admit(c, parsed).Ok? && BarOf(c, parsed).id !in t.seen
  {
    hide Admit, BarRow;
  }

  ghost predicate Follows(c: Config, heads: map<string, Option<Position>>, bars: set<Event>, t: Ingestor) {
    HeadsFollow(c, heads, bars, t) && SeenFollows(c, bars, t)
  }

  lemma FollowOne(c: Config, heads: map<string, Option<Position>>, bars: set<Event>, t: Ingestor, parsed: Parsed,
                  dates: set<Date>)
    requires Follows(c, heads, bars, t) && t.heads.Keys == heads.Keys && Sessions(t) <= dates && |dates| <= c.retention
    requires MayBecomeBar(c, parsed) ==> SessionOf(c, parsed) in dates
    ensures var taken := if IsBar(c, heads.Keys, parsed) && Takes(c, t, parsed) then {BarOf(c, parsed)} else {};
            Follows(c, heads, bars + taken, Submit(c, t, parsed).after)
  {
    hide HeadsFollow, SeenFollows, Submit, Prepare, Admit, BarRow, Sessions, Applied;
    if Takes(c, t, parsed) {
      TakesBars(c, t, parsed);
      TakenIsNew(c, t, parsed);
      TakenApplies(c, t, parsed, dates);
      if IsBar(c, heads.Keys, parsed) {
        var p := Prepare(c, t, NOTHING, parsed).value;
        StoredFollows(c, heads, bars, t, p);
        StoredIsSeen(c, bars, t, p);
      } else {
        assert bars + {} == bars;
      }
    } else {
      NotTaken(c, t, parsed);
      assert bars + {} == bars;
    }
  }

  lemma NothingFollows(c: Config, heads: map<string, Option<Position>>)
    ensures Follows(c, heads, {}, Empty(heads))
  {
  }

  /** Ids and heads are those of the bars taken in, whatever the order. */
  lemma {:induction false} AcceptedDecide(c: Config, heads: map<string, Option<Position>>, events: seq<Parsed>)
    requires Consistent(Bars(c, heads.Keys, events)) && |WireSessions(c, events)| <= c.retention
    ensures Follows(c, heads, Accepted(c, Empty(heads), events), Run(c, Empty(heads), events))
    decreases |events|
  {
    hide Follows, Consistent, WireSessions, Submit, Bars, IsBar, Takes, MayBecomeBar, Sessions, Converged;
    if events == [] {
      NothingFollows(c, heads);
    } else {
      var n := |events| - 1;
      var front, last := events[..n], events[n];
      assert events == front + [last];
      OneMoreBar(c, heads.Keys, front, last);
      SubsetSize(WireSessions(c, front), WireSessions(c, events));
      FewerAreConsistent(Bars(c, heads.Keys, front), Bars(c, heads.Keys, events));
      AcceptedDecide(c, heads, front);
      RunConverges(c, heads, front);
      FollowOne(c, heads, Accepted(c, Empty(heads), front), Run(c, Empty(heads), front), last, WireSessions(c, events));
    }
  }

  lemma {:induction false} AcceptedAreBars(c: Config, s: Ingestor, events: seq<Parsed>)
    ensures Accepted(c, s, events) <= Bars(c, s.heads.Keys, events)
    decreases |events|
  {
    hide Takes, Run, Bars, IsBar;
    if events != [] {
      var n := |events| - 1;
      assert events == events[..n] + [events[n]];
      AcceptedAreBars(c, s, events[..n]);
      OneMoreBar(c, s.heads.Keys, events[..n], events[n]);
    }
  }

  /** The highest revision of every bar. */
  ghost function Tops(bars: set<Event>): set<Event> {
    set e | e in bars && Top(bars, e)
  }

  lemma HeldIsAccepted(c: Config, accepted: set<Event>, bars: set<Event>, t: Ingestor, e: Event)
    requires Holds(c, t, e) && SeenFollows(c, accepted, t) && accepted <= bars && e in bars && Consistent(bars)
    ensures e in accepted
  {
    hide Buffered, GroupOf, BarRow;
    assert Delivered(accepted, e.id);
    var a :| a in accepted && a.id == e.id;
    assert Compatible(a, e);
  }

  /** The highest revision of a bar is taken in, in any order. */
  lemma TopsAreAccepted(c: Config, heads: map<string, Option<Position>>, events: seq<Parsed>)
    requires Consistent(Bars(c, heads.Keys, events)) && |WireSessions(c, events)| <= c.retention
    ensures Tops(Bars(c, heads.Keys, events)) <= Accepted(c, Empty(heads), events) <= Bars(c, heads.Keys, events)
  {
    hide Run, Bars, WireSessions, Bookkeeping, HeadsFollow, SeenFollows, Accepted, Converged, Consistent, Holds, Top;
    var bars, t := Bars(c, heads.Keys, events), Run(c, Empty(heads), events);
    RunConverges(c, heads, events);
    AcceptedDecide(c, heads, events);
    AcceptedAreBars(c, Empty(heads), events);
    forall e | e in bars && Top(bars, e) ensures e in Accepted(c, Empty(heads), events) {
      TopIsHeld(c, bars, t, e);
      HeldIsAccepted(c, Accepted(c, Empty(heads), events), bars, t, e);
    }
  }

  // ---- the two extreme orders -----------------------------------------------------------------

  function RevisionOf(parsed: Parsed): nat {
    if parsed.Ok? then parsed.value.revision else 0
  }

  predicate Earlier(a: Parsed, b: Parsed) {
    RevisionOf(a) <= RevisionOf(b)
  }

  predicate Later(a: Parsed, b: Parsed) {
    RevisionOf(b) <= RevisionOf(a)
  }

  lemma RevisionsSort(events: seq<Parsed>)
    ensures SortedBy(Earlier, SortBy(events, Earlier)) && multiset(SortBy(events, Earlier)) == multiset(events)
    ensures SortedBy(Later, SortBy(events, Later)) && multiset(SortBy(events, Later)) == multiset(events)
  {
    assert TotalPreorder(Earlier) && TotalPreorder(Later);
    SortByCorrect(events, Earlier);
    SortByCorrect(events, Later);
  }

  lemma SortedFront(le: (Parsed, Parsed) -> bool, events: seq<Parsed>)
    requires events != [] && SortedBy(le, events)
    ensures SortedBy(le, events[..|events| - 1])
    ensures forall i :: 0 <= i < |events| - 1 ==> le(events[i], events[|events| - 1])
  {
  }

  lemma BarRevision(c: Config, parsed: Parsed)
    requires Admit(c, parsed).Ok?
    ensures RevisionOf(parsed) == BarOf(c, parsed).revision
  {
  }

  /** Every bar delivered so far compares with the last one as its delivery does. */
  lemma RevisionsBefore(c: Config, shards: set<string>, front: seq<Parsed>, last: Parsed, e: Event)
    requires e in Bars(c, shards, front) && IsBar(c, shards, last)
    ensures (forall i :: 0 <= i < |front| ==> Earlier(front[i], last)) ==> e.revision <= BarOf(c, last).revision
    ensures (forall i :: 0 <= i < |front| ==> Later(front[i], last)) ==> BarOf(c, last).revision <= e.revision
  {
    hide IsBar, BarOf, Admit;
    var i :| 0 <= i < |front| && IsBar(c, shards, front[i]) && BarOf(c, front[i]) == e;
    BarRevision(c, front[i]);
    BarRevision(c, last);
  }

  lemma CoveringBar(c: Config, front: set<Event>, t: Ingestor, e: Event) returns (f: Event)
    requires Converged(c, front, t) && Covers(t, e)
    ensures f in front && KeyOf(f) == KeyOf(e) && Holds(c, t, f) && e.revision <= f.revision
  {
    hide Filed, BufferHasSlots, BarRow, GroupOf, Buffered;
    assert HeldFrom(c, front, t, KeyOf(e));
    f :| f in front && KeyOf(f) == KeyOf(e) && Holds(c, t, f);
  }

  /** A bar that is not taken although nothing held is newer was taken before. */
  lemma CoveredIsAccepted(c: Config, front: set<Event>, accepted: set<Event>, t: Ingestor, e: Event)
    requires Converged(c, front, t) && SeenFollows(c, accepted, t) && accepted <= front && Consistent(front + {e})
    requires e.id in t.seen || Covers(t, e)
    requires forall f :: f in front ==> f.revision <= e.revision
    ensures e in accepted
  {
    hide Converged, Consistent, Covers, Holds, KeyOf;
    if e.id in t.seen {
      assert Delivered(accepted, e.id);
      var a :| a in accepted && a.id == e.id;
      InBoth(front, e, a);
    } else {
      var f := CoveringBar(c, front, t, e);
      InBoth(front, e, f);
      FewerAreConsistent(front, front + {e});
      HeldIsAccepted(c, accepted, front, t, f);
    }
  }

  lemma InBoth(front: set<Event>, e: Event, f: Event)
    requires Consistent(front + {e}) && f in front
    ensures Compatible(f, e)
  {
    hide Compatible;
  }

  /** Oldest revisions first, every bar is taken in. */
  lemma {:induction false} AscendingAcceptsAll(c: Config, heads: map<string, Option<Position>>, events: seq<Parsed>)
    requires Consistent(Bars(c, heads.Keys, events)) && |WireSessions(c, events)| <= c.retention && SortedBy(Earlier, events)
    ensures Accepted(c, Empty(heads), events) == Bars(c, heads.Keys, events)
    decreases |events|
  {
    hide Follows, Consistent, WireSessions, Bars, IsBar, Takes, MayBecomeBar, Converged, Bookkeeping, SortedBy, Earlier,
      Run;
    var s := Empty(heads);
    if events == [] {
      NoBars(c, heads.Keys);
    } else {
      var n := |events| - 1;
      var front, last := events[..n], events[n];
      assert events == front + [last];
      OneMoreBar(c, heads.Keys, front, last);
      SubsetSize(WireSessions(c, front), WireSessions(c, events));
      FewerAreConsistent(Bars(c, heads.Keys, front), Bars(c, heads.Keys, events));
      SortedFront(Earlier, events);
      AscendingAcceptsAll(c, heads, front);
      if IsBar(c, heads.Keys, last) && !Takes(c, Run(c, s, front), last) { AscendingTook(c, heads, front, last); }
    }
  }

  lemma NoBars(c: Config, shards: set<string>)
    ensures Bars(c, shards, []) == {}
  {
  }

  lemma AscendingTook(c: Config, heads: map<string, Option<Position>>, front: seq<Parsed>, last: Parsed)
    requires IsBar(c, heads.Keys, last) && !Takes(c, Run(c, Empty(heads), front), last)
    requires Consistent(Bars(c, heads.Keys, front)) && |WireSessions(c, front)| <= c.retention
    requires Consistent(Bars(c, heads.Keys, front) + {BarOf(c, last)})
    requires forall i :: 0 <= i < |front| ==> Earlier(front[i], last)
    ensures BarOf(c, last) in Accepted(c, Empty(heads), front)
  {
    hide Consistent, WireSessions, Bars, IsBar, Takes, MayBecomeBar, Converged, Bookkeeping, Earlier, Run, HeadsFollow,
      SeenFollows, Accepted, Covers, Submit;
    var s, e := Empty(heads), BarOf(c, last);
    var t, bars := Run(c, s, front), Bars(c, heads.Keys, front);
    RunConverges(c, heads, front);
    AcceptedDecide(c, heads, front);
    AcceptedAreBars(c, s, front);
    assert t.heads.Keys == heads.Keys by { SameHeadKeys(c, heads, Accepted(c, s, front), t); }
    NotTaken(c, t, last);
    forall f | f in bars ensures f.revision <= e.revision { RevisionsBefore(c, heads.Keys, front, last, f); }
    CoveredIsAccepted(c, bars, Accepted(c, s, front), t, e);
  }

  lemma SameHeadKeys(c: Config, heads: map<string, Option<Position>>, bars: set<Event>, t: Ingestor)
    requires HeadsFollow(c, heads, bars, t)
    ensures t.heads.Keys == heads.Keys
  {
  }

  /** Newest revisions first, only the highest revision of each bar is taken in. */
  lemma {:induction false} DescendingAcceptsTops(c: Config, heads: map<string, Option<Position>>, events: seq<Parsed>)
    requires Consistent(Bars(c, heads.Keys, events)) && |WireSessions(c, events)| <= c.retention && SortedBy(Later, events)
    ensures Accepted(c, Empty(heads), events) == Tops(Bars(c, heads.Keys, events))
    decreases |events|
  {
    hide Follows, Consistent, WireSessions, Bars, IsBar, Takes, MayBecomeBar, Converged, Bookkeeping, SortedBy, Later,
      Run, Tops, BarOf;
    TopsAreAccepted(c, heads, events);
    var s := Empty(heads);
    if events != [] {
      var n := |events| - 1;
      var front, last := events[..n], events[n];
      assert events == front + [last];
      OneMoreBar(c, heads.Keys, front, last);
      SubsetSize(WireSessions(c, front), WireSessions(c, events));
      FewerAreConsistent(Bars(c, heads.Keys, front), Bars(c, heads.Keys, events));
      SortedFront(Later, events);
      DescendingAcceptsTops(c, heads, front);
      if IsBar(c, heads.Keys, last) {
        TopsGrow(c, heads, front, last);
      } else {
        assert Bars(c, heads.Keys, events) == Bars(c, heads.Keys, front);
      }
    }
  }

  /** The last and lowest delivery outranks nothing, and is on top only of a new bar. */
  lemma TopsGrow(c: Config, heads: map<string, Option<Position>>, front: seq<Parsed>, last: Parsed)
    requires IsBar(c, heads.Keys, last)
    requires Consistent(Bars(c, heads.Keys, front)) && |WireSessions(c, front)| <= c.retention
    requires forall i :: 0 <= i < |front| ==> Later(front[i], last)
    ensures Tops(Bars(c, heads.Keys, front)) <= Tops(Bars(c, heads.Keys, front) + {BarOf(c, last)})
    ensures Takes(c, Run(c, Empty(heads), front), last) ==> BarOf(c, last) in Tops(Bars(c, heads.Keys, front) + {BarOf(c, last)})
  {
    hide Consistent, WireSessions, Bars, IsBar, Takes, MayBecomeBar, Bookkeeping, Later, Run, Filed, BufferHasSlots,
      HeldFrom;
    var t, bars, e := Run(c, Empty(heads), front), Bars(c, heads.Keys, front), BarOf(c, last);
    forall f | f in bars ensures e.revision <= f.revision { RevisionsBefore(c, heads.Keys, front, last, f); }
    if Takes(c, t, last) {
      RunConverges(c, heads, front);
      TakesBars(c, t, last);
      forall f | f in bars ensures KeyOf(f) != KeyOf(e) { assert Covers(t, f); }
    }
  }

  // ---- exactly when the order does not matter ----------------------------------------------------

  ghost predicate SameDeliveries(a: seq<Parsed>, b: seq<Parsed>) {
    multiset(a) == multiset(b)
  }

  lemma SameBars(c: Config, shards: set<string>, a: seq<Parsed>, b: seq<Parsed>)
    requires SameDeliveries(a, b)
    ensures Bars(c, shards, a) == Bars(c, shards, b) && WireSessions(c, a) == WireSessions(c, b)
  {
    BarsWithin(c, shards, a, b);
    BarsWithin(c, shards, b, a);
  }

  lemma BarsWithin(c: Config, shards: set<string>, a: seq<Parsed>, b: seq<Parsed>)
    requires SameDeliveries(a, b)
    ensures Bars(c, shards, a) <= Bars(c, shards, b) && WireSessions(c, a) <= WireSessions(c, b)
  {
    hide IsBar, MayBecomeBar, SessionOf, BarOf, Admit;
    forall i | 0 <= i < |a| ensures exists j :: 0 <= j < |b| && b[j] == a[i] {
      assert a[i] in multiset(b);
    }
  }

  /** No bar was delivered in two revisions. */
  ghost predicate NoCorrections(bars: set<Event>) {
    forall a, b :: a in bars && b in bars && KeyOf(a) == KeyOf(b) ==> a.revision == b.revision
  }

  /** Every delivered position is reached by a highest revision of its shard, or by where
      the shard's head began. */
  ghost predicate Settled(c: Config, heads: map<string, Option<Position>>, bars: set<Event>) {
    forall e :: e in bars ==> Reached(c, heads, bars, e)
  }

  ghost predicate Reached(c: Config, heads: map<string, Option<Position>>, bars: set<Event>, e: Event) {
    var shard, at := c.shardOf(e.instrument), Some(PositionOf(e));
    || (shard in heads && NotBehind(at, heads[shard]))
    || exists f :: f in Tops(bars) && c.shardOf(f.instrument) == shard && NotBehind(at, Some(PositionOf(f)))
  }

  ghost predicate SeenInAnyOrder(c: Config, heads: map<string, Option<Position>>, events: seq<Parsed>) {
    forall a, b :: SameDeliveries(a, events) && SameDeliveries(b, events) ==>
      Run(c, Empty(heads), a).seen == Run(c, Empty(heads), b).seen
  }

  ghost predicate HeadsInAnyOrder(c: Config, heads: map<string, Option<Position>>, events: seq<Parsed>) {
    forall a, b :: SameDeliveries(a, events) && SameDeliveries(b, events) ==>
      Run(c, Empty(heads), a).heads == Run(c, Empty(heads), b).heads
  }

  /** What every order of the deliveries has in common, and what the two extremes do. */
  lemma OrderFacts(c: Config, heads: map<string, Option<Position>>, events: seq<Parsed>, order: seq<Parsed>)
    requires Consistent(Bars(c, heads.Keys, events)) && |WireSessions(c, events)| <= c.retention && SameDeliveries(order, events)
    ensures var bars, accepted := Bars(c, heads.Keys, events), Accepted(c, Empty(heads), order);
            && Tops(bars) <= accepted <= bars && Follows(c, heads, accepted, Run(c, Empty(heads), order))
            && (SortedBy(Earlier, order) ==> accepted == bars) && (SortedBy(Later, order) ==> accepted == Tops(bars))
  {
    hide Bars, WireSessions, Consistent, Run, Accepted, Follows, Tops, SortedBy, SameDeliveries;
    SameBars(c, heads.Keys, order, events);
    TopsAreAccepted(c, heads, order);
    AcceptedDecide(c, heads, order);
    if SortedBy(Earlier, order) { AscendingAcceptsAll(c, heads, order); }
    if SortedBy(Later, order) { DescendingAcceptsTops(c, heads, order); }
  }

  lemma SameAcceptedSameSeen(c: Config, accepted: set<Event>, t: Ingestor, u: Ingestor)
    requires SeenFollows(c, accepted, t) && SeenFollows(c, accepted, u)
    ensures t.seen == u.seen
  {
    forall id ensures id in t.seen <==> id in u.seen {
      if id in t.seen { assert Delivered(accepted, id); }
      if id in u.seen { assert Delivered(accepted, id); }
    }
    forall id | id in t.seen ensures t.seen[id] == u.seen[id] {
      assert Delivered(accepted, id);
    }
  }

  lemma SameSeenSameAccepted(c: Config, bars: set<Event>, a: set<Event>, b: set<Event>, t: Ingestor, u: Ingestor)
    requires Consistent(bars) && a <= bars && b <= bars && SeenFollows(c, a, t) && SeenFollows(c, b, u) && t.seen == u.seen
    ensures a <= b
  {
    forall e | e in a ensures e in b {
      assert Delivered(b, e.id);
      var f :| f in b && f.id == e.id;
      assert Compatible(e, f);
    }
  }

  lemma AllOnTopExactly(bars: set<Event>)
    ensures Tops(bars) == bars <==> NoCorrections(bars)
  {
    hide KeyOf;
    if Tops(bars) == bars {
      forall a, b | a in bars && b in bars && KeyOf(a) == KeyOf(b) ensures a.revision == b.revision {
        assert a in Tops(bars) && b in Tops(bars);
      }
    }
    if NoCorrections(bars) {
      forall e | e in bars ensures e in Tops(bars) {
        assert Top(bars, e);
      }
    }
  }

  /** The remembered ids are the same for every order of delivery if and only if no bar
      was delivered in two revisions. */
  lemma SeenAgreesExactly(c: Config, heads: map<string, Option<Position>>, events: seq<Parsed>)
    requires Consistent(Bars(c, heads.Keys, events)) && |WireSessions(c, events)| <= c.retention
    ensures SeenInAnyOrder(c, heads, events) <==> NoCorrections(Bars(c, heads.Keys, events))
  {
    hide SeenInAnyOrder, NoCorrections, Bars, WireSessions, Consistent;
    if SeenInAnyOrder(c, heads, events) { AgreeingMeansUncorrected(c, heads, events); }
    if NoCorrections(Bars(c, heads.Keys, events)) { UncorrectedAgree(c, heads, events); }
  }

  lemma AgreeingMeansUncorrected(c: Config, heads: map<string, Option<Position>>, events: seq<Parsed>)
    requires Consistent(Bars(c, heads.Keys, events)) && |WireSessions(c, events)| <= c.retention && SeenInAnyOrder(c, heads, events)
    ensures NoCorrections(Bars(c, heads.Keys, events))
  {
    hide Bars, WireSessions, Consistent, Run, Accepted, HeadsFollow, SeenFollows, Tops, SortedBy, NoCorrections;
    var bars, s := Bars(c, heads.Keys, events), Empty(heads);
    var up, down := SortBy(events, Earlier), SortBy(events, Later);
    RevisionsSort(events);
    assert SameDeliveries(up, events) && SameDeliveries(down, events);
    OrderFacts(c, heads, events, up);
    OrderFacts(c, heads, events, down);
    SameSeenSameAccepted(c, bars, Accepted(c, s, up), Accepted(c, s, down), Run(c, s, up), Run(c, s, down));
    AllOnTopExactly(bars);
  }

  lemma UncorrectedAgree(c: Config, heads: map<string, Option<Position>>, events: seq<Parsed>)
    requires Consistent(Bars(c, heads.Keys, events)) && |WireSessions(c, events)| <= c.retention && NoCorrections(Bars(c, heads.Keys, events))
    ensures SeenInAnyOrder(c, heads, events)
  {
    hide Bars, WireSessions, Consistent, Run, Accepted, HeadsFollow, SeenFollows, Tops, SortedBy, NoCorrections,
      SameDeliveries;
    var bars, s := Bars(c, heads.Keys, events), Empty(heads);
    AllOnTopExactly(bars);
    forall a, b | SameDeliveries(a, events) && SameDeliveries(b, events)
      ensures Run(c, s, a).seen == Run(c, s, b).seen
    {
      OrderFacts(c, heads, events, a);
      OrderFacts(c, heads, events, b);
      assert Accepted(c, s, a) == bars && Accepted(c, s, b) == bars;
      SameAcceptedSameSeen(c, bars, Run(c, s, a), Run(c, s, b));
    }
  }

  lemma HeadIsUnique(init: Option<Position>, bars: set<Event>, c: Config, shard: string, h: Option<Position>,
                     g: Option<Position>)
    requires IsHead(init, bars, c, shard, h) && IsHead(init, bars, c, shard, g)
    ensures h == g
  {
  }

  /** When everything is reached, the highest revisions alone decide the head. */
  lemma TopsDecide(c: Config, heads: map<string, Option<Position>>, bars: set<Event>, accepted: set<Event>,
                   shard: string, h: Option<Position>)
    requires Settled(c, heads, bars) && Tops(bars) <= accepted <= bars && shard in heads
    requires IsHead(heads[shard], accepted, c, shard, h)
    ensures IsHead(heads[shard], Tops(bars), c, shard, h)
  {
    hide Tops, PositionOf;
    if h != heads[shard] {
      var e :| e in accepted && c.shardOf(e.instrument) == shard && h == Some(PositionOf(e));
      assert Reached(c, heads, bars, e);
      var f :| f in Tops(bars) && c.shardOf(f.instrument) == shard && NotBehind(Some(PositionOf(e)), Some(PositionOf(f)));
      assert NotBehind(Some(PositionOf(f)), h);
    }
  }

  lemma SettledHeadsAgree(c: Config, heads: map<string, Option<Position>>, bars: set<Event>, a: set<Event>,
                          b: set<Event>, t: Ingestor, u: Ingestor)
    requires Settled(c, heads, bars) && Tops(bars) <= a <= bars && Tops(bars) <= b <= bars
    requires HeadsFollow(c, heads, a, t) && HeadsFollow(c, heads, b, u)
    ensures t.heads == u.heads
  {
    hide Settled, Tops, IsHead;
    forall shard | shard in heads ensures t.heads[shard] == u.heads[shard] {
      TopsDecide(c, heads, bars, a, shard, t.heads[shard]);
      TopsDecide(c, heads, bars, b, shard, u.heads[shard]);
      HeadIsUnique(heads[shard], Tops(bars), c, shard, t.heads[shard], u.heads[shard]);
    }
  }

  /** Extremes that agree leave nothing beyond the highest revisions. */
  lemma ExtremesSettle(c: Config, heads: map<string, Option<Position>>, bars: set<Event>, t: Ingestor, u: Ingestor)
    requires HeadsFollow(c, heads, bars, t) && HeadsFollow(c, heads, Tops(bars), u) && t.heads == u.heads
    requires forall e :: e in bars ==> c.shardOf(e.instrument) in heads
    ensures Settled(c, heads, bars)
  {
    hide Tops, PositionOf;
    forall e | e in bars ensures Reached(c, heads, bars, e) {
      var shard := c.shardOf(e.instrument);
      assert IsHead(heads[shard], bars, c, shard, t.heads[shard]);
      assert IsHead(heads[shard], Tops(bars), c, shard, u.heads[shard]);
    }
  }

  lemma BarsAreDeclared(c: Config, shards: set<string>, events: seq<Parsed>)
    ensures forall e :: e in Bars(c, shards, events) ==> c.shardOf(e.instrument) in shards
  {
    hide Admit, BarRow;
  }

  /** The shard heads are the same for every order of delivery if and only if every
      delivered position is reached by a highest revision or by where the head began. */
  lemma HeadsAgreeExactly(c: Config, heads: map<string, Option<Position>>, events: seq<Parsed>)
    requires Consistent(Bars(c, heads.Keys, events)) && |WireSessions(c, events)| <= c.retention
    ensures HeadsInAnyOrder(c, heads, events) <==> Settled(c, heads, Bars(c, heads.Keys, events))
  {
    hide Bars, WireSessions, Consistent, Run, Accepted, HeadsFollow, SeenFollows, Tops, SortedBy, Settled;
    var bars, s := Bars(c, heads.Keys, events), Empty(heads);
    var up, down := SortBy(events, Earlier), SortBy(events, Later);
    RevisionsSort(events);
    BarsAreDeclared(c, heads.Keys, events);
    if HeadsInAnyOrder(c, heads, events) {
      assert SameDeliveries(up, events) && SameDeliveries(down, events);
      OrderFacts(c, heads, events, up);
      OrderFacts(c, heads, events, down);
      ExtremesSettle(c, heads, bars, Run(c, s, up), Run(c, s, down));
    }
    if Settled(c, heads, bars) {
      forall a, b | SameDeliveries(a, events) && SameDeliveries(b, events)
        ensures Run(c, s, a).heads == Run(c, s, b).heads
      {
        OrderFacts(c, heads, events, a);
        OrderFacts(c, heads, events, b);
        SettledHeadsAgree(c, heads, bars, Accepted(c, s, a), Accepted(c, s, b), Run(c, s, a), Run(c, s, b));
      }
    }
  }

  /** A correction of a, with a smaller sequence number. */
  ghost predicate Corrects(a: Event, b: Event) {
    KeyOf(a) == KeyOf(b) && a.revision < b.revision && a.sequence > b.sequence && a.id != b.id
  }

  /** An original and its correction: with the original's sequence number the larger, the
      head depends on which comes first, and so do the remembered ids. */
  lemma HeadsDependOnOrder(c: Config, shard: string, a: Parsed, b: Parsed)
    requires IsBar(c, {shard}, a) && IsBar(c, {shard}, b) && c.retention >= 1 && Corrects(BarOf(c, a), BarOf(c, b))
    ensures !HeadsInAnyOrder(c, map[shard := None], [a, b]) && !SeenInAnyOrder(c, map[shard := None], [a, b])
  {
    hide Admit, BarRow, IsBar, BarOf, Corrects, HeadsInAnyOrder, SeenInAnyOrder, Bars, WireSessions;
    TwoBars(c, shard, a, b);
    TwoRevisionsDisagree(c, shard, [a, b], BarOf(c, a), BarOf(c, b));
  }

  lemma TwoRevisionsDisagree(c: Config, shard: string, events: seq<Parsed>, a: Event, b: Event)
    requires Bars(c, {shard}, events) == {a, b} && |WireSessions(c, events)| <= c.retention
    requires Corrects(a, b) && c.shardOf(a.instrument) == shard
    ensures !HeadsInAnyOrder(c, map[shard := None], events) && !SeenInAnyOrder(c, map[shard := None], events)
  {
    hide Corrects, Settled, Consistent, NoCorrections, HeadsInAnyOrder, SeenInAnyOrder, Bars, WireSessions;
    var heads := map[shard := None];
    assert heads.Keys == {shard};
    TwoRevisions(c, shard, a, b);
    SeenAgreesExactly(c, heads, events);
    HeadsAgreeExactly(c, heads, events);
  }

  lemma TwoRevisions(c: Config, shard: string, a: Event, b: Event)
    requires Corrects(a, b) && c.shardOf(a.instrument) == shard
    ensures Consistent({a, b}) && !NoCorrections({a, b}) && !Settled(c, map[shard := None], {a, b})
  {
    var heads := map[shard := None];
    assert Tops({a, b}) == {b} by { assert !Top({a, b}, a); }
    assert !Reached(c, heads, {a, b}, a);
  }

  lemma TwoBars(c: Config, shard: string, a: Parsed, b: Parsed)
    requires IsBar(c, {shard}, a) && IsBar(c, {shard}, b) && Corrects(BarOf(c, a), BarOf(c, b))
    ensures Bars(c, {shard}, [a, b]) == {BarOf(c, a), BarOf(c, b)} && |WireSessions(c, [a, b])| <= 1
    ensures c.shardOf(BarOf(c, a).instrument) == shard
  {
    hide Admit, BarRow;
    assert [a, b][0] == a && [a, b][1] == b;
    assert WireSessions(c, [a, b]) <= {SessionOf(c, a)};
    SubsetSize(WireSessions(c, [a, b]), {SessionOf(c, a)});
  }
}
