/** What every run of the ingestor keeps, and what any two delivery orders agree on. */
module IngestRuns {
  import opened Common
  import opened Partitions
  import opened Ingest
  import opened IngestBatch

  // ---- the run invariant ------------------------------------------------------------------

  /** Every buffered row sits under the group its own key determines. */
  ghost predicate Filed(c: Config, s: Ingestor) {
    && (forall g :: g in s.buffer ==> s.buffer[g] != map[])
    && (forall g, k :: g in s.buffer && k in s.buffer[g] ==> g == GroupOf(c, k))
  }

  ghost predicate RowsMatchKeys(c: Config, s: Ingestor) {
    forall g, k :: g in s.buffer && k in s.buffer[g] ==>
      s.buffer[g][k].instrument == k.instrument && s.buffer[g][k].start == k.start &&
      s.buffer[g][k].session == c.sessionOf(k.start)
  }

  ghost predicate SlotsDated(c: Config, s: Ingestor) {
    forall k :: k in s.slots ==> s.slots[k].session == c.sessionOf(k.start)
  }

  /** The remembered id belongs to an accepted event, and its bar is still held at that
      event's revision or a higher one. */
  ghost predicate Backed(c: Config, s: Ingestor, accepted: seq<Event>, id: string)
    requires id in s.seen
  {
    exists i :: 0 <= i < |accepted| && accepted[i].id == id && BackedBy(c, s, accepted[i])
  }

  ghost predicate BackedBy(c: Config, s: Ingestor, e: Event)
  {
    && e.id in s.seen && s.seen[e.id] == c.sessionOf(e.occurredAt)
    && KeyOf(e) in s.slots && s.slots[KeyOf(e)].revision >= e.revision
  }

  ghost predicate Remembered(c: Config, s: Ingestor, accepted: seq<Event>) {
    forall id :: id in s.seen ==> Backed(c, s, accepted, id)
  }

  /** accepted lists the events committed so far. */
  ghost predicate Sound(c: Config, s: Ingestor, accepted: seq<Event>) {
    && Filed(c, s) && RowsMatchKeys(c, s) && SlotsDated(c, s) && Remembered(c, s, accepted)
    && |Sessions(s)| <= c.retention + 1
  }

  /** The event a prepared bar carries made it past everything held for its key. */
  ghost predicate Outranks(c: Config, s: Ingestor, p: Prepared) {
    p.Accepted? ==>
      && (KeyOf(p.event) in s.slots ==> p.event.revision > s.slots[KeyOf(p.event)].revision)
      && p.row.instrument == p.event.instrument && p.row.start == p.event.occurredAt
      && p.row.session == c.sessionOf(p.event.occurredAt) && p.shard == c.shardOf(p.event.instrument)
  }

  lemma RetainedSessions(c: Config, s: Ingestor, d: Date)
    ensures Sessions(Retain(c, s, d)) <= Sessions(s)
    ensures |Sessions(s) + {d}| > c.retention ==> Sessions(Retain(c, s, d)) <= Newest(Sessions(s) + {d}, c.retention)
  {
    hide Newest;
  }

  /** After a commit at most retention sessions are remembered, or one more: then the
      commit itself is older than everything else. */
  lemma OneExtraSession(c: Config, s: Ingestor, p: Prepared)
    requires p.Accepted? && Commit(c, s, p).Returned?
    ensures var after, d := Sessions(Commit(c, s, p).after), c.sessionOf(p.event.occurredAt);
            |after| <= c.retention ||
            (|after| == c.retention + 1 && forall x :: x in after && x != d ==> d < x)
  {
    var d := c.sessionOf(p.event.occurredAt);
    var kept := Retain(c, s, d);
    var dates := Sessions(s) + {d};
    hide Applied, Retain, Sessions, Compare;
    RetainedSessions(c, s, d);
    RetainKeepsShards(c, s, p);
    AppliedSessions(c, kept, p);
    var after := Sessions(Applied(c, kept, p));
    if |dates| <= c.retention {
      SubsetSize(after, dates);
    } else {
      var top := Newest(dates, c.retention);
      NewestIsTop(dates, c.retention);
      SubsetSize(after, top + {d});
      if d in top { assert top + {d} == top; }
    }
  }

  lemma RetainRemembers(c: Config, s: Ingestor, accepted: seq<Event>, d: Date)
    requires Remembered(c, s, accepted) && SlotsDated(c, s)
    ensures Remembered(c, Retain(c, s, d), accepted) && SlotsDated(c, Retain(c, s, d))
  {
    hide Newest, Sessions;
    var t := Retain(c, s, d);
    forall id | id in t.seen ensures Backed(c, t, accepted, id) {
      assert Backed(c, s, accepted, id);
      var i :| 0 <= i < |accepted| && accepted[i].id == id && BackedBy(c, s, accepted[i]);
      assert s.slots[KeyOf(accepted[i])].session == t.seen[id];
      assert BackedBy(c, t, accepted[i]);
    }
  }

  lemma RetainSound(c: Config, s: Ingestor, accepted: seq<Event>, d: Date)
    requires Sound(c, s, accepted)
    ensures Sound(c, Retain(c, s, d), accepted)
  {
    var t := Retain(c, s, d);
    assert t.buffer == s.buffer && Filed(c, t) && RowsMatchKeys(c, t) by { hide Sessions, Newest, GroupOf; }
    hide Retain, Sessions, Filed, RowsMatchKeys, SlotsDated, Remembered;
    RetainRemembers(c, s, accepted, d);
    RetainedSessions(c, s, d);
    SubsetSize(Sessions(t), Sessions(s));
  }

  lemma PutFiled(c: Config, b: map<GroupKey, map<SlotKey, Row>>, k: SlotKey, row: Row)
    ensures var t := Put(b, GroupOf(c, k), k, row);
            && GroupOf(c, k) in t && k in t[GroupOf(c, k)] && t[GroupOf(c, k)][k] == row
            && (forall g, j :: g in t && j in t[g] && (g, j) != (GroupOf(c, k), k) ==> g in b && j in b[g] && t[g][j] == b[g][j])
            && (forall g, j :: g in b && j in b[g] && (g, j) != (GroupOf(c, k), k) ==> g in t && j in t[g] && t[g][j] == b[g][j])
            && (forall g :: g in t && g != GroupOf(c, k) ==> g in b && t[g] == b[g])
  {
  }

  lemma AppliedRemembers(c: Config, s: Ingestor, accepted: seq<Event>, p: Prepared)
    requires Remembered(c, s, accepted) && p.Accepted? && p.shard in s.heads && Outranks(c, s, p)
    ensures Remembered(c, Applied(c, s, p), accepted + [p.event])
  {
    hide Put, GroupOf, Compare;
    var t, now := Applied(c, s, p), accepted + [p.event];
    forall id | id in t.seen ensures Backed(c, t, now, id) {
      if id == p.event.id {
        assert now[|accepted|] == p.event && BackedBy(c, t, p.event);
      } else {
        assert Backed(c, s, accepted, id);
        var i :| 0 <= i < |accepted| && accepted[i].id == id && BackedBy(c, s, accepted[i]);
        assert now[i] == accepted[i] && BackedBy(c, t, accepted[i]);
      }
    }
  }

  lemma AppliedFiles(c: Config, s: Ingestor, p: Prepared)
    requires Filed(c, s) && RowsMatchKeys(c, s) && SlotsDated(c, s)
    requires p.Accepted? && p.shard in s.heads && Outranks(c, s, p)
    ensures Filed(c, Applied(c, s, p)) && RowsMatchKeys(c, Applied(c, s, p)) && SlotsDated(c, Applied(c, s, p))
  {
    hide Put, GroupOf, Compare, Filed, RowsMatchKeys;
    var k := KeyOf(p.event);
    StoredIsFiled(c, s, k, p.row);
    assert SlotsDated(c, Applied(c, s, p));
    hide SlotsDated;
    SameBuffer(c, s.(buffer := Put(s.buffer, GroupOf(c, k), k, p.row)), Applied(c, s, p));
  }

  lemma SameBuffer(c: Config, s: Ingestor, t: Ingestor)
    requires t.buffer == s.buffer && Filed(c, s) && RowsMatchKeys(c, s)
    ensures Filed(c, t) && RowsMatchKeys(c, t)
  {
    hide GroupOf;
  }

  lemma StoredIsFiled(c: Config, s: Ingestor, k: SlotKey, row: Row)
    requires Filed(c, s) && RowsMatchKeys(c, s) && row.instrument == k.instrument && row.start == k.start && row.session == c.sessionOf(k.start)
    ensures var t := s.(buffer := Put(s.buffer, GroupOf(c, k), k, row)); Filed(c, t) && RowsMatchKeys(c, t)
  {
    hide Put, GroupOf;
    var t, g := s.(buffer := Put(s.buffer, GroupOf(c, k), k, row)), GroupOf(c, k);
    PutFiled(c, s.buffer, k, row);
    forall h, j | h in t.buffer && j in t.buffer[h]
      ensures h == GroupOf(c, j) && t.buffer[h][j].instrument == j.instrument && t.buffer[h][j].start == j.start && t.buffer[h][j].session == c.sessionOf(j.start)
    {
      if (h, j) != (g, k) { assert t.buffer[h][j] == s.buffer[h][j]; }
    }
    forall h | h in t.buffer ensures t.buffer[h] != map[] {
      if h == g { assert k in t.buffer[h]; }
    }
  }

  function Grown(accepted: seq<Event>, p: Prepared, done: Ending<Decision>): seq<Event> {
    if p.Accepted? && done.Returned? then accepted + [p.event] else accepted
  }

  /** Every commit keeps the invariant, whether it returns or the ledger raises. */
  lemma CommitSound(c: Config, s: Ingestor, accepted: seq<Event>, p: Prepared)
    requires Sound(c, s, accepted) && Outranks(c, s, p)
    ensures Sound(c, Commit(c, s, p).after, Grown(accepted, p, Commit(c, s, p)))
  {
    if p.Accepted? {
      var d := c.sessionOf(p.event.occurredAt);
      RetainSound(c, s, accepted, d);
      RetainKeepsShards(c, s, p);
      var kept := Retain(c, s, d);
      assert Outranks(c, kept, p) by { hide Newest, Sessions; }
      if p.shard in s.heads {
        OneExtraSession(c, s, p);
        AppliedRemembers(c, kept, accepted, p);
        AppliedFiles(c, kept, p);
        hide Applied, Retain, Sessions, Filed, RowsMatchKeys, SlotsDated, Remembered;
        assert Commit(c, s, p).after == Applied(c, kept, p);
      }
    }
  }

  lemma PreparedOutranks(c: Config, s: Ingestor, parsed: Parsed)
    requires Prepare(c, s, NOTHING, parsed).Ok?
    ensures Outranks(c, s, Prepare(c, s, NOTHING, parsed).value)
  {
    hide Admit;
  }

  /** No bar is in two groups, so a flush that walks the groups emits it once. */
  lemma OneGroupPerBar(c: Config, s: Ingestor, k: SlotKey, g: GroupKey, h: GroupKey)
    requires Filed(c, s) && g in s.buffer && h in s.buffer && k in s.buffer[g] && k in s.buffer[h]
    ensures g == h == GroupOf(c, k)
    ensures var date := c.sessionOf(k.start); g.window.start <= date < g.window.end
  {
    assert g == GroupOf(c, k);
    assert h == GroupOf(c, k);
  }

  /** A reported decision is the truth about the state: an accepted event is remembered,
      holds its slot and sits in the buffer; any other changed nothing. */
  lemma DecisionMatchesState(c: Config, s: Ingestor, parsed: Parsed)
    requires Submit(c, s, parsed).Returned?
    ensures Admit(c, parsed).Ok?
    ensures var e, d, t := Admit(c, parsed).value, Submit(c, s, parsed).value, Submit(c, s, parsed).after;
            && d.id == e.id && d.revision == e.revision && (d.accepted <==> d.progress.Some?)
            && (!d.accepted ==> t == s)
            && (d.accepted ==>
                 && t.seen == Retain(c, s, c.sessionOf(e.occurredAt)).seen[e.id := c.sessionOf(e.occurredAt)]
                 && KeyOf(e) in t.slots && t.slots[KeyOf(e)] == SlotOf(c, e)
                 && GroupOf(c, KeyOf(e)) in t.buffer && KeyOf(e) in t.buffer[GroupOf(c, KeyOf(e))]
                 && BarRow(c, e) == Some(t.buffer[GroupOf(c, KeyOf(e))][KeyOf(e)]))
  {
    hide Admit, BarRow, GroupOf, Retain;
  }

  /** Each reason is given exactly in its own situation. */
  lemma ReasonsAreExact(c: Config, s: Ingestor, parsed: Parsed)
    requires Submit(c, s, parsed).Returned?
    ensures Admit(c, parsed).Ok?
    ensures var e, d := Admit(c, parsed).value, Submit(c, s, parsed).value;
            var foreign, k := e.eventType != c.eventType, KeyOf(e);
            var outranked := k in s.slots && s.slots[k].revision > e.revision;
            && (d.reason == NON_BAR_EVENT_TYPE <==> foreign && (e.eventType == "QUOTE" || e.eventType == "TRADE"))
            && (d.reason == EVENT_TYPE_NOT_INGESTED <==> foreign && e.eventType != "QUOTE" && e.eventType != "TRADE")
            && (d.reason == DUPLICATE_EVENT <==> !foreign && e.id in s.seen)
            && (d.reason == SUPERSEDED_REVISION <==> !foreign && e.id !in s.seen && outranked)
            && (d.reason == CORRECTION_APPLIED <==> d.accepted && e.revision > 0)
            && (d.reason == ACCEPTED_LATE <==> d.accepted && e.revision == 0 && d.progress != Some(ADVANCED))
            && (d.accepted <==> !foreign && e.id !in s.seen && !outranked)
  {
    hide Admit, BarRow, GroupOf, Retain, Compare, Applied;
  }

  // ---- the watermark is not a gate -------------------------------------------------------------------

  /** Shard heads decide the reported freshness and nothing else about a bar. */
  lemma WatermarkNeverGates(c: Config, s: Ingestor, t: Ingestor, p: Prepared)
    requires t == s.(heads := t.heads) && t.heads.Keys == s.heads.Keys
    ensures var a, b := Commit(c, s, p), Commit(c, t, p);
            && (a.Returned? <==> b.Returned?)
            && b.after == a.after.(heads := b.after.heads)
            && (a.Returned? ==> a.value.accepted == b.value.accepted)
  {
    hide Put, GroupOf, Newest;
  }

  predicate NotBehind(head: Option<Position>, later: Option<Position>) {
    head.Some? ==> later.Some? && (later == head || Ahead(later.value, head.value))
  }

  /** A late bar never rewinds a shard head. */
  lemma HeadsNeverRewind(c: Config, s: Ingestor, p: Prepared, shard: string)
    requires shard in s.heads
    ensures shard in Commit(c, s, p).after.heads && NotBehind(s.heads[shard], Commit(c, s, p).after.heads[shard])
    ensures var done := Commit(c, s, p);
            p.Accepted? && done.Returned? ==>
            && p.shard in s.heads && done.value.progress == Some(Compare(s.heads[p.shard], PositionOf(p.event)))
            && NotBehind(Some(PositionOf(p.event)), done.after.heads[p.shard])
  {
    CommitKeepsShards(c, s, p);
    RetainKeepsShards(c, s, p);
    hide Put, GroupOf, Retain;
  }
}
