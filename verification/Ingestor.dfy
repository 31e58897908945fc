/** The ingestor and its watermark ledger as objects updated in place, each method
    against the functions of module Ingest. */
module Ingestors {
  import opened Common
  import opened Partitions
  import opened TextOrder
  import opened Ingest
  import opened IngestBatch
  import opened IngestRuns
  import opened FlushPlan

  // ---- batches, one event at a time ------------------------------------------------------------

  function Joined(front: seq<Prepared>, r: Result<seq<Prepared>, Refusal>): Result<seq<Prepared>, Refusal> {
    if r.Err? then r else Ok(front + r.value)
  }

  function Reported(front: seq<Decision>, r: Ending<seq<Decision>>): Ending<seq<Decision>> {
    if r.Raised? then r else Returned(r.after, front + r.value)
  }

  lemma PrepareAllStep(c: Config, s: Ingestor, o: Overlay, events: seq<Parsed>, front: seq<Prepared>)
    requires events != []
    ensures var step, all := Prepare(c, s, o, events[0]), Joined(front, PrepareAll(c, s, o, events));
            if step.Err? then all == Err(step.error)
            else all == Joined(front + [step.value], PrepareAll(c, s, Absorb(c, o, step.value), events[1..]))
  {
    hide Prepare, Absorb;
    if Prepare(c, s, o, events[0]).Ok? {
      var p := Prepare(c, s, o, events[0]).value;
      var rest := PrepareAll(c, s, Absorb(c, o, p), events[1..]);
      if rest.Ok? { assert front + ([p] + rest.value) == (front + [p]) + rest.value; }
    }
  }

  lemma CommitAllStep(c: Config, s: Ingestor, items: seq<Prepared>, front: seq<Decision>)
    requires items != []
    ensures var step, all := Commit(c, s, items[0]), Reported(front, CommitAll(c, s, items));
            if step.Raised? then all == Raised(step.after, step.why)
            else all == Reported(front + [step.value], CommitAll(c, step.after, items[1..]))
  {
    hide Commit;
    if Commit(c, s, items[0]).Returned? {
      var t, d := Commit(c, s, items[0]).after, Commit(c, s, items[0]).value;
      var rest := CommitAll(c, t, items[1..]);
      if rest.Returned? { assert front + ([d] + rest.value) == (front + [d]) + rest.value; }
    }
  }

  /** t holds no slot that the overlay does not know at the same revision; eviction may
      have dropped some. */
  ghost predicate Lags(s: Ingestor, o: Overlay, t: Ingestor) {
    forall k :: k in t.slots ==> Held(s, o, k) == Some(t.slots[k])
  }

  lemma LaggingOutranks(c: Config, s: Ingestor, o: Overlay, t: Ingestor, parsed: Parsed)
    requires Lags(s, o, t) && Prepare(c, s, o, parsed).Ok?
    ensures Outranks(c, t, Prepare(c, s, o, parsed).value)
  {
    hide Admit;
  }

  lemma CommitLags(c: Config, s: Ingestor, o: Overlay, t: Ingestor, p: Prepared)
    requires Lags(s, o, t)
    ensures Lags(s, Absorb(c, o, p), Commit(c, t, p).after) || Commit(c, t, p).Raised?
  {
    hide Newest, Put, GroupOf, Compare, Sessions;
  }

  /** What the caller sees of an ending. */
  function Seen<T>(done: Ending<T>): Result<T, Refusal> {
    if done.Returned? then Ok(done.value) else Err(done.why)
  }

  // ---- the ledger ----------------------------------------------------------------------------------

  class WatermarkLedger {
    var heads: map<string, Option<Position>>

    constructor (shards: seq<string>, resumedFrom: Option<Position>)
      ensures heads == map shard | shard in shards :: resumedFrom
    {
      heads := map shard | shard in shards :: resumedFrom;
    }

    /** None is the exception for a shard that was not declared. */
    method Observe(shard: string, p: Position) returns (r: Option<Progress>)
      modifies this
      ensures r.None? <==> shard !in old(heads)
      ensures r.None? ==> heads == old(heads)
      ensures r.Some? ==> r.value == Compare(old(heads)[shard], p)
      ensures r.Some? ==> heads == if r.value == ADVANCED then old(heads)[shard := Some(p)] else old(heads)
    {
      if shard !in heads { return None; }
      var head := heads[shard];
      var progress;
      if head.None? || Ahead(p, head.value) {
        progress := ADVANCED;
      } else if p == head.value {
        progress := DUPLICATE;
      } else {
        progress := STALE;
      }
      if progress == ADVANCED { heads := heads[shard := Some(p)]; }
      r := Some(progress);
    }
  }

  // ---- the outcome of a flush --------------------------------------------------------------------------

  predicate AvailableAfter(call: YearCall, publish: (nat, seq<Group>) -> Option<Publication>) {
    var answer := publish(call.year, call.groups);
    answer.Some? && answer.value.available
  }

  /** Everything the calls reported. */
  function IncidentsOf(calls: seq<YearCall>, publish: (nat, seq<Group>) -> Option<Publication>): nat {
    if calls == [] then 0
    else
      var last := calls[|calls| - 1];
      var answer := publish(last.year, last.groups);
      IncidentsOf(calls[..|calls| - 1], publish) + (if answer.Some? then answer.value.incidents else 0)
  }

  function ObjectKeysOf(calls: seq<YearCall>, publish: (nat, seq<Group>) -> Option<Publication>): seq<string> {
    if calls == [] then []
    else
      var last := calls[|calls| - 1];
      var answer := publish(last.year, last.groups);
      ObjectKeysOf(calls[..|calls| - 1], publish) + (if answer.Some? then answer.value.keys else [])
  }

  /** One manifest per year in year order, all the incidents, all the object keys in order;
      AVAILABLE exactly when every year's manifest is, and NO_CHANGE only without a call. */
  ghost predicate Reports(r: FlushResult, groups: seq<Group>, calls: seq<YearCall>,
                          publish: (nat, seq<Group>) -> Option<Publication>) {
    && r.rows == Total(groups)
    && Answers(r.manifests, calls, publish)
    && (r.status == NO_CHANGE <==> calls == [])
    && (r.status == AVAILABLE <==> calls != [] && forall i :: 0 <= i < |calls| ==> AvailableAfter(calls[i], publish))
    && r.incidents == IncidentsOf(calls, publish)
    && SortedBy(TextLe, r.keys) && multiset(r.keys) == multiset(ObjectKeysOf(calls, publish))
  }

  ghost predicate Answers(manifests: seq<string>, calls: seq<YearCall>,
                          publish: (nat, seq<Group>) -> Option<Publication>) {
    && |manifests| == |calls|
    && forall i :: 0 <= i < |calls| ==>
         var answer := publish(calls[i].year, calls[i].groups);
         answer.Some? && answer.value.manifest == manifests[i]
  }

  // ---- the ingestor ----------------------------------------------------------------------------------

  class RealtimeIngestor {
    const c: Config
    const ledger: WatermarkLedger
    var buffer: map<GroupKey, map<SlotKey, Row>>
    var seen: map<string, Date>
    var slots: map<SlotKey, Slot>
    // The events committed so far.
    ghost var accepted: seq<Event>

    ghost function State(): Ingestor
      reads this, ledger
    {
      Ingestor(buffer, seen, slots, ledger.heads)
    }

    ghost predicate Valid()
      reads this, ledger
    {
      c.retention >= 1 && Sound(c, State(), accepted)
    }

    constructor (c: Config, ledger: WatermarkLedger)
      requires c.retention >= 1
      ensures this.c == c && this.ledger == ledger
      ensures Valid() && State() == Empty(ledger.heads) && accepted == []
    {
      this.c, this.ledger := c, ledger;
      buffer, seen, slots, accepted := map[], map[], map[], [];
      new;
      assert Sessions(State()) == {};
    }

    method PrepareEvent(wire: Json, ids: set<string>, overlaid: map<SlotKey, Slot>)
      returns (r: Result<Prepared, Refusal>)
      ensures r == Prepare(c, State(), Overlay(ids, overlaid), Parse(c, wire))
    {
      hide Parse;
      var admitted := Admit(c, Parse(c, wire));
      if admitted.Err? { return Err(admitted.error); }
      var e := admitted.value;
      var shard := c.shardOf(e.instrument);
      if e.eventType != c.eventType {
        return Ok(Rejected(e, shard, if e.eventType in NON_BAR_EVENT_TYPES then NON_BAR_EVENT_TYPE else EVENT_TYPE_NOT_INGESTED));
      }
      if e.id in seen || e.id in ids { return Ok(Rejected(e, shard, DUPLICATE_EVENT)); }
      var k := KeyOf(e);
      if k in overlaid || k in slots {
        var held := if k in overlaid then overlaid[k] else slots[k];
        if e.revision < held.revision { return Ok(Rejected(e, shard, SUPERSEDED_REVISION)); }
        if e.revision == held.revision { return Err(Conflict); }
      }
      var row := BarRow(c, e);
      r := if row.None? then Err(BadValues) else Ok(Accepted(e, shard, row.value));
    }

    method DropOld(session: Date)
      modifies `seen, `slots
      ensures State() == Retain(c, old(State()), session)
    {
      var dates := seen.Values + (set k | k in slots :: slots[k].session) + {session};
      assert dates == Sessions(State()) + {session};
      if |dates| <= c.retention { return; }
      var keep := Newest(dates, c.retention);
      seen := map id | id in seen && seen[id] in keep :: seen[id];
      slots := map k | k in slots && slots[k].session in keep :: slots[k];
    }

    method CommitPrepared(p: Prepared) returns (r: Result<Decision, Refusal>)
      requires Valid() && Outranks(c, State(), p)
      modifies this, ledger
      ensures Valid()
      ensures State() == Commit(c, old(State()), p).after
      ensures r == Seen(Commit(c, old(State()), p))
    {
      hide Sound, Outranks, Newest, Retain, Put, GroupOf, KeyOf, SlotOf, PositionOf, Sessions, AcceptedReason, Report,
        Compare;
      CommitSound(c, State(), accepted, p);
      if p.Rejected? {
        r := Ok(Report(p, false, p.reason, None));
      } else {
        var e := p.event;
        DropOld(c.sessionOf(e.occurredAt));
        var progress := ledger.Observe(p.shard, PositionOf(e));
        if progress.None? {
          r := Err(UnknownShard);
        } else {
          var k := KeyOf(e);
          buffer := Put(buffer, GroupOf(c, k), k, p.row);
          slots := slots[k := SlotOf(c, e)];
          seen := seen[e.id := c.sessionOf(e.occurredAt)];
          accepted := accepted + [e];
          r := Ok(Report(p, true, AcceptedReason(e, progress.value), progress));
        }
      }
    }

    /** Validate, classify and buffer one event. */
    method Submit(wire: Json) returns (r: Result<Decision, Refusal>)
      requires Valid()
      modifies this, ledger
      ensures Valid()
      ensures State() == Ingest.Submit(c, old(State()), Parse(c, wire)).after
      ensures r == Seen(Ingest.Submit(c, old(State()), Parse(c, wire)))
    {
      hide Prepare, Commit, Sound, Outranks, Parse;
      var prepared := PrepareEvent(wire, {}, map[]);
      if prepared.Err? { return Err(prepared.error); }
      PreparedOutranks(c, State(), Parse(c, wire));
      r := CommitPrepared(prepared.value);
    }

    /** Prepares every event against the overlay of its predecessors, then commits. */
    method SubmitBatch(wires: seq<Json>) returns (r: Result<seq<Decision>, Refusal>)
      requires Valid()
      modifies this, ledger
      ensures Valid()
      ensures State() == Ingest.SubmitBatch(c, old(State()), ParseAll(c, wires)).after
      ensures r == Seen(Ingest.SubmitBatch(c, old(State()), ParseAll(c, wires)))
    {
      hide Prepare, Commit, Sound, Outranks, PrepareAll, CommitAll, Absorb, Lags, Parse, ParseAll;
      var items := PrepareBatch(wires);
      if items.Err? { return Err(items.error); }
      r := CommitBatch(ParseAll(c, wires), items.value);
    }

    method PrepareBatch(wires: seq<Json>) returns (r: Result<seq<Prepared>, Refusal>)
      ensures r == PrepareAll(c, State(), NOTHING, ParseAll(c, wires))
    {
      hide Prepare, Parse, ParseAll;
      ghost var s, o, events := State(), NOTHING, ParseAll(c, wires);
      var ids, overlaid, items := {}, map[], [];
      assert events[0..] == events;
      NothingJoined(PrepareAll(c, s, o, events));
      var i := 0;
      while i < |wires|
        invariant 0 <= i <= |wires| && o == Overlay(ids, overlaid)
        invariant PrepareAll(c, s, NOTHING, events) == Joined(items, PrepareAll(c, s, o, events[i..]))
      {
        var next := PrepareEvent(wires[i], ids, overlaid);
        PrepareAllStep(c, s, o, events[i..], items);
        if next.Err? { return Err(next.error); }
        var p := next.value;
        assert events[i..][1..] == events[i + 1..];
        items := items + [p];
        o := Absorb(c, o, p);
        if p.Accepted? {
          ids := ids + {p.event.id};
          overlaid := overlaid[KeyOf(p.event) := SlotOf(c, p.event)];
        }
        i := i + 1;
      }
      assert items + [] == items;
      r := Ok(items);
    }

    method CommitBatch(ghost events: seq<Parsed>, items: seq<Prepared>) returns (r: Result<seq<Decision>, Refusal>)
      requires Valid() && PrepareAll(c, State(), NOTHING, events) == Ok(items)
      modifies this, ledger
      ensures Valid()
      ensures State() == CommitAll(c, old(State()), items).after
      ensures r == Seen(CommitAll(c, old(State()), items))
    {
      hide Prepare, PrepareAll, Commit, Sound, Outranks, CommitAll, Absorb, Held, Lags;
      ghost var s, o := State(), NOTHING;
      var decisions := [];
      assert events[0..] == events && items[0..] == items;
      NothingLags(s);
      NothingReported(CommitAll(c, s, items));
      var i := 0;
      while i < |items|
        invariant 0 <= i <= |items| == |events| && Valid()
        invariant PrepareAll(c, s, o, events[i..]) == Ok(items[i..]) && Lags(s, o, State())
        invariant CommitAll(c, s, items) == Reported(decisions, CommitAll(c, State(), items[i..]))
      {
        ghost var t := State();
        NextPrepared(c, s, o, events[i..], items[i..]);
        LaggingOutranks(c, s, o, t, events[i]);
        CommitLags(c, s, o, t, items[i]);
        CommitAllStep(c, t, items[i..], decisions);
        var next := CommitPrepared(items[i]);
        if next.Err? { return Err(next.error); }
        assert items[i..][1..] == items[i + 1..] && events[i..][1..] == events[i + 1..];
        decisions := decisions + [next.value];
        o := Absorb(c, o, items[i]);
        i := i + 1;
      }
      assert items[i..] == [] && decisions + [] == decisions;
      CommitNone(c, State());
      r := Ok(decisions);
    }

    /** Publishes the buffer year by year; publish answers None when the engine raises.
        Only a flush that got through every year clears the buffer. */
    method Flush(publish: (nat, seq<Group>) -> Option<Publication>)
      returns (r: Option<FlushResult>, groups: seq<Group>, calls: seq<YearCall>)
      requires Valid()
      modifies `buffer
      ensures Valid()
      ensures State() == if r.Some? then old(State()).(buffer := map[]) else old(State())
      ensures ListsGroups(groups, old(buffer))
      ensures r.Some? ==> Plans(calls, groups) && Reports(r.value, groups, calls, publish)
      ensures r.None? ==> StoppedAtLast(calls, groups, publish)
    {
      ghost var s := State();
      KeysMatchRows(c, State(), accepted);
      hide Sound, ListsGroups, InYear, Plans, Reports, StoppedAtLast;
      groups := ListGroups(buffer);
      var plan := PlanYears(groups);
      r, calls := PublishAll(plan, groups, publish);
      if r.Some? {
        ClearedSound(c, State(), accepted);
        buffer := map[];
      }
    }
  }

  /** The last call is the one that raised; the earlier years are published. */
  ghost predicate StoppedAtLast(calls: seq<YearCall>, groups: seq<Group>,
                                publish: (nat, seq<Group>) -> Option<Publication>) {
    && calls != [] && Begins(calls, groups)
    && publish(Last(calls).year, Last(calls).groups).None?
    && forall i :: 0 <= i < |calls| - 1 ==> publish(calls[i].year, calls[i].groups).Some?
  }

  /** Calls the engine year by year and adds its answers up; None is its exception. */
  method PublishAll(plan: seq<YearCall>, groups: seq<Group>, publish: (nat, seq<Group>) -> Option<Publication>)
    returns (r: Option<FlushResult>, calls: seq<YearCall>)
    requires Plans(plan, groups)
    ensures r.Some? ==> calls == plan && Reports(r.value, groups, calls, publish)
    ensures r.None? ==> StoppedAtLast(calls, groups, publish)
  {
    hide InYear, YearOfGroup, AddsUp, Answers;
    calls := [];
    var sum := Sum([], 0, [], true);
    NothingAdded(publish);
    var i := 0;
    while i < |plan|
      invariant 0 <= i <= |plan| && calls == plan[..i] && AddsUp(sum, calls, publish)
    {
      var answer := publish(plan[i].year, plan[i].groups);
      if answer.None? {
        StoppedHere(plan, groups, publish, i, sum);
        return None, plan[..i + 1];
      }
      OneMoreAnswer(sum, calls, plan[i], publish);
      calls := calls + [plan[i]];
      sum := Sum(sum.manifests + [answer.value.manifest], sum.incidents + answer.value.incidents, sum.keys + answer.value.keys,
                 sum.allAvailable && answer.value.available);
      i := i + 1;
    }
    assert calls == plan;
    TextLeIsTotal();
    var status := if calls == [] then NO_CHANGE else if sum.allAvailable then AVAILABLE else QUARANTINED;
    SumReports(sum, groups, calls, publish, status);
    r := Some(FlushResult(status, Total(groups), sum.manifests, sum.incidents, SortBy(sum.keys, TextLe)));
  }

  datatype Sum = Sum(manifests: seq<string>, incidents: nat, keys: seq<string>, allAvailable: bool)

  ghost predicate AddsUp(sum: Sum, calls: seq<YearCall>, publish: (nat, seq<Group>) -> Option<Publication>) {
    && Answers(sum.manifests, calls, publish)
    && sum.incidents == IncidentsOf(calls, publish) && sum.keys == ObjectKeysOf(calls, publish)
    && (sum.allAvailable <==> forall j :: 0 <= j < |calls| ==> AvailableAfter(calls[j], publish))
  }

  lemma NothingAdded(publish: (nat, seq<Group>) -> Option<Publication>)
    ensures AddsUp(Sum([], 0, [], true), [], publish)
  {
  }

  lemma OneMoreAnswer(sum: Sum, calls: seq<YearCall>, call: YearCall, publish: (nat, seq<Group>) -> Option<Publication>)
    requires AddsUp(sum, calls, publish) && publish(call.year, call.groups).Some?
    ensures var answer := publish(call.year, call.groups).value;
            AddsUp(Sum(sum.manifests + [answer.manifest], sum.incidents + answer.incidents, sum.keys + answer.keys,
                       sum.allAvailable && answer.available), calls + [call], publish)
  {
    var more := calls + [call];
    assert more[..|more| - 1] == calls && more[|more| - 1] == call;
    assert forall j :: 0 <= j < |calls| ==> more[j] == calls[j];
  }

  lemma StoppedHere(plan: seq<YearCall>, groups: seq<Group>, publish: (nat, seq<Group>) -> Option<Publication>, i: nat,
                    sum: Sum)
    requires Plans(plan, groups) && i < |plan| && publish(plan[i].year, plan[i].groups).None? && AddsUp(sum, plan[..i], publish)
    ensures StoppedAtLast(plan[..i + 1], groups, publish)
  {
    hide InYear, YearOfGroup;
    assert forall j :: 0 <= j < i ==> plan[..i + 1][j] == plan[..i][j];
  }

  lemma SumReports(sum: Sum, groups: seq<Group>, calls: seq<YearCall>,
                   publish: (nat, seq<Group>) -> Option<Publication>, status: FlushStatus)
    requires AddsUp(sum, calls, publish) && TotalPreorder(TextLe)
    requires status == if calls == [] then NO_CHANGE else if sum.allAvailable then AVAILABLE else QUARANTINED
    ensures Reports(FlushResult(status, Total(groups), sum.manifests, sum.incidents, SortBy(sum.keys, TextLe)), groups, calls, publish)
  {
    hide Answers;
    SortByCorrect(sum.keys, TextLe);
  }

  lemma KeysMatchRows(c: Config, s: Ingestor, accepted: seq<Event>)
    requires Sound(c, s, accepted)
    ensures forall g, k :: g in s.buffer && k in s.buffer[g] ==> RowKey(s.buffer[g][k]) == k
  {
    hide Filed, Remembered, Sessions, SlotsDated;
  }

  /** What the ledger and the ingestor refuse to be built from. */
  method NewIngestor(c: Config, shards: seq<string>, resumedFrom: Option<Position>)
    returns (r: Option<RealtimeIngestor>)
    ensures r.Some? <==> shards != [] && NoDuplicates(shards) && c.retention >= 1
    ensures r.Some? ==> fresh(r.value) && fresh(r.value.ledger) && r.value.c == c && r.value.Valid()
    ensures r.Some? ==> r.value.State() == Empty(map shard | shard in shards :: resumedFrom)
  {
    if shards == [] || c.retention < 1 { return None; }
    for i := 0 to |shards|
      invariant NoDuplicates(shards[..i])
    {
      if shards[i] in shards[..i] {
        assert exists j :: 0 <= j < i && shards[j] == shards[i];
        return None;
      }
    }
    assert shards[..|shards|] == shards;
    var ledger := new WatermarkLedger(shards, resumedFrom);
    var ingestor := new RealtimeIngestor(c, ledger);
    r := Some(ingestor);
  }

  function Last(calls: seq<YearCall>): YearCall
    requires calls != []
  {
    calls[|calls| - 1]
  }

  lemma ClearedSound(c: Config, s: Ingestor, accepted: seq<Event>)
    requires Sound(c, s, accepted)
    ensures Sound(c, s.(buffer := map[]), accepted)
  {
    hide Filed, RowsMatchKeys, Sessions, SlotsDated, Remembered;
    var t := s.(buffer := map[]);
    NothingFiled(c, t);
    SameMemory(c, s, t, accepted);
  }

  lemma NothingFiled(c: Config, t: Ingestor)
    requires t.buffer == map[]
    ensures Filed(c, t) && RowsMatchKeys(c, t)
  {
  }

  lemma SameMemory(c: Config, s: Ingestor, t: Ingestor, accepted: seq<Event>)
    requires t.seen == s.seen && t.slots == s.slots && Remembered(c, s, accepted) && SlotsDated(c, s)
    ensures Remembered(c, t, accepted) && SlotsDated(c, t) && Sessions(t) == Sessions(s)
  {
    forall id | id in t.seen ensures Backed(c, t, accepted, id) {
      assert Backed(c, s, accepted, id);
      var i :| 0 <= i < |accepted| && accepted[i].id == id && BackedBy(c, s, accepted[i]);
      assert BackedBy(c, t, accepted[i]);
    }
  }

  lemma NothingJoined(r: Result<seq<Prepared>, Refusal>)
    ensures Joined([], r) == r
  {
    if r.Ok? { assert [] + r.value == r.value; }
  }

  lemma NothingReported(r: Ending<seq<Decision>>)
    ensures Reported([], r) == r
  {
    if r.Returned? { assert [] + r.value == r.value; }
  }

  lemma NothingLags(s: Ingestor)
    ensures Lags(s, NOTHING, s)
  {
  }

  lemma CommitNone(c: Config, s: Ingestor)
    ensures CommitAll(c, s, []) == Returned(s, [])
  {
  }

  lemma NextPrepared(c: Config, s: Ingestor, o: Overlay, events: seq<Parsed>, items: seq<Prepared>)
    requires events != [] && PrepareAll(c, s, o, events) == Ok(items)
    ensures items != [] && Prepare(c, s, o, events[0]) == Ok(items[0])
    ensures PrepareAll(c, s, Absorb(c, o, items[0]), events[1..]) == Ok(items[1..])
  {
    hide Prepare, Absorb;
  }
}
