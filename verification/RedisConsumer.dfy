/** The Redis adapter and the consumer loop as objects. Each method is one or more steps
    of the system in module RedisStream, so one cycle is a stretch of one of its runs. */
module RedisConsumer {
  import opened Common
  import opened TextOrder
  import opened Ingest
  import opened IngestBatch
  import IngestRuns
  import opened FlushPlan
  import opened Ingestors
  import opened RedisStream
  import opened RedisSafety

  /** n steps of one consumer in a row. */
  function ActMany(k: Settings, name: string, sh: Shared, p: Process, n: nat): (Shared, Process) {
    if n == 0 then (sh, p)
    else
      var r := ActMany(k, name, sh, p, n - 1);
      Acts(k, name, r.0, r.1, false)
  }

  ghost predicate Once(k: Settings, name: string, sh: Shared, p: Process) {
    ActMany(k, name, sh, p, 1) == Acts(k, name, sh, p, false)
  }

  lemma {:induction false} ActManyAdds(k: Settings, name: string, sh: Shared, p: Process, m: nat, n: nat)
    ensures ActMany(k, name, sh, p, m + n) == ActMany(k, name, ActMany(k, name, sh, p, m).0, ActMany(k, name, sh, p, m).1, n)
  {
    hide Acts;
    if n > 0 { ActManyAdds(k, name, sh, p, m, n - 1); }
  }

  lemma {:induction false} ActManyKeeps(k: Settings, name: string, sh: Shared, p: Process, n: nat)
    requires SharedInv(k, sh) && ProcessInv(k, name, sh, p)
    ensures SharedInv(k, ActMany(k, name, sh, p, n).0) && ProcessInv(k, name, ActMany(k, name, sh, p, n).0, ActMany(k, name, sh, p, n).1)
  {
    hide SharedInv, ProcessInv, Acts;
    if n > 0 {
      ActManyKeeps(k, name, sh, p, n - 1);
      ActKeeps(k, name, ActMany(k, name, sh, p, n - 1).0, ActMany(k, name, sh, p, n - 1).1, false);
    }
  }

  lemma ActManyHolds(k: Settings, name: string, sh: Shared, p: Process, n: nat, end: (Shared, Process))
    requires SharedInv(k, sh) && ProcessInv(k, name, sh, p) && end == ActMany(k, name, sh, p, n)
    ensures SharedInv(k, end.0) && HeldInv(end.0, name, end.1.held)
  {
    hide SharedInv, PcInv, HeldInv, ActMany;
    ActManyKeeps(k, name, sh, p, n);
  }

  class RedisClient {
    var now: int
    var server: Server
    ghost var delivered: set<nat>
    ghost var handed: set<Handed>
    ghost var acked: map<nat, Settled>
    ghost var classified: seq<Classified>

    ghost function View(): Shared
      reads this
    {
      Shared(now, server, delivered, handed, acked, classified)
    }
  }

  class RedisMarketEventSource {
    const k: Settings
    const name: string
    const client: RedisClient
    var held: map<nat, Fields>

    constructor (k: Settings, name: string, client: RedisClient)
      ensures this.k == k && this.name == name && this.client == client && held == map[]
    {
      this.k, this.name, this.client, held := k, name, client, map[];
    }

    /** Takes over what is due, counting the delivery. */
    method Reclaim(ghost ingestor: Ingestor) returns (queue: seq<Delivery>)
      modifies this, client
      ensures (client.View(), Process(Polling(queue), held, ingestor))
           == ActMany(k, name, old(client.View()), Process(Working([]), old(held), ingestor), 2)
      ensures client.classified == old(client.classified) && client.server.dead == old(client.server.dead)
    {
      hide DueIds, ClaimedDeliveries, HoldAll, Handle;
      ghost var sh, p := client.View(), Process(Working([]), held, ingestor);
      var ids := DueIds(client.server.pending, client.now, k.minIdle, 0, client.server.last, k.batch);
      var counts := map id | id in ids :: client.server.pending[id].count;
      assert ActMany(k, name, sh, p, 1) == (sh, p.(pc := Snapshotted(ids, counts)));
      if ids == [] {
        queue := [];
        NothingClaimed(sh, k, name, counts, held);
      } else {
        queue := Claimed(ids, counts);
        ReadingParksNothing(client.server, name, client.now, k.minIdle, ids);
        client.handed := client.handed + HandedOver(client.server, name, queue);
        client.server := Claim(client.server, name, client.now, k.minIdle, ids);
        held := HoldAll(held, queue);
      }
    }

    method Claimed(ids: seq<nat>, counts: map<nat, nat>) returns (queue: seq<Delivery>)
      ensures queue == ClaimedDeliveries(client.View(), k, ids, counts)
    {
      queue := [];
      assert ids[..0] == [];
      for i := 0 to |ids|
        invariant queue == ClaimedDeliveries(client.View(), k, ids[..i], counts)
      {
        assert ids[..i + 1][..i] == ids[..i];
        var id := ids[i];
        if Claims(client.server, client.now, k.minIdle, id) {
          queue := queue + [Delivery(id, StillThere(client.server, id), (if id in counts then counts[id] else 0) + 1)];
        }
      }
      assert ids[..|ids|] == ids;
    }

    /** Reclaims first, then reads new entries for what room is left. */
    method Poll(ghost ingestor: Ingestor) returns (queue: seq<Delivery>)
      modifies this, client
      ensures (client.View(), Process(Working(queue), held, ingestor))
           == ActMany(k, name, old(client.View()), Process(Working([]), old(held), ingestor), 3)
      ensures client.classified == old(client.classified) && client.server.dead == old(client.server.dead)
    {
      hide UnreadIds, HoldAll, Handle, HandOut, ReadDeliveries, Claim, DueIds, ClaimedDeliveries;
      queue := Reclaim(ingestor);
      if |queue| < k.batch {
        var ids := UnreadIds(client.server, client.server.last, k.batch - |queue|);
        var more := ReadDeliveries(client.server, ids);
        ReadingParksNothing(client.server, name, client.now, k.minIdle, ids);
        client.handed := client.handed + HandedOver(client.server, name, more);
        client.server := HandOut(client.server, name, client.now, ids);
        client.delivered := client.delivered + (set i | i in ids);
        held := HoldAll(held, more);
        queue := queue + more;
      }
    }

    method Acknowledge(d: Delivery, ghost why: Evidence, ghost rest: seq<Delivery>, ghost ingestor: Ingestor)
      modifies this, client
      ensures (client.View(), Process(Working(rest), held, ingestor))
           == Acts(k, name, old(client.View()), Process(Acking(d, why, rest), old(held), ingestor), false)
    {
      if d.id in client.server.pending {
        client.server := XAck(client.server, d.id);
        client.acked := client.acked[d.id := Settled(name, why)];
      }
      held := held - {d.id};
    }

    /** False is the exception for a delay the idle clock cannot express. */
    method RetryLater(d: Delivery, ghost rest: seq<Delivery>, ghost ingestor: Ingestor) returns (ok: bool)
      modifies this, client
      ensures ok <==> k.delay <= k.minIdle
      ensures (client.View(), Process(Working(if ok then rest else []), held, ingestor))
           == Acts(k, name, old(client.View()), Process(Retrying(d, rest), old(held), ingestor), false)
    {
      ok := k.delay <= k.minIdle;
      if ok {
        client.server := WindIdle(client.server, name, client.now, k.minIdle - k.delay, d.id);
        held := held - {d.id};
      }
    }

    /** False is the exception for having nowhere to park. */
    method DeadLetter(d: Delivery, reason: ParkReason, ghost rest: seq<Delivery>, ghost ingestor: Ingestor)
      returns (ok: bool)
      modifies this, client
      ensures ok <==> k.parks
      ensures (client.View(), Process(Working(if ok then rest else []), held, ingestor))
           == ActMany(k, name, old(client.View()), Process(Parking(d, reason, rest), old(held), ingestor), if ok then 2 else 1)
    {
      hide ParkedCopy;
      ok := k.parks;
      if !ok {
        OneStep(k, name, client.View(), Process(Parking(d, reason, rest), held, ingestor));
      } else {
        var raw := if d.id in held then held[d.id] else map["__undecodable__" := ""];
        ghost var at := |client.server.dead|;
        ghost var sh, p := client.View(), Process(Parking(d, reason, rest), held, ingestor);
        OneStep(k, name, sh, p);
        client.server := client.server.(dead := client.server.dead + [ParkedCopy(k, d, raw, reason)]);
        assert ActMany(k, name, sh, p, 1) == (client.View(), p.(pc := Acking(d, ByParking(at, raw), rest)));
        Acknowledge(d, ByParking(at, raw), rest, ingestor);
      }
    }
  }

  lemma ReadingParksNothing(s: Server, owner: string, now: int, minIdle: nat, ids: seq<nat>)
    ensures Claim(s, owner, now, minIdle, ids).dead == s.dead && HandOut(s, owner, now, ids).dead == s.dead
  {
  }

  lemma NothingClaimed(sh: Shared, k: Settings, name: string, counts: map<nat, nat>, held: map<nat, Fields>)
    ensures Claim(sh.server, name, sh.now, k.minIdle, []) == sh.server
    ensures ClaimedDeliveries(sh, k, [], counts) == [] && HoldAll(held, []) == held
    ensures sh.handed + HandedOver(sh.server, name, []) == sh.handed
  {
    assert Claim(sh.server, name, sh.now, k.minIdle, []).pending == sh.server.pending;
  }

  // ---- the loop --------------------------------------------------------------------------------------

  datatype Cycle = Cycle(received: nat, accepted: nat, skipped: nat, acknowledged: nat, retried: nat, deadLettered: nat)

  /** What became of one delivery; Aborted is an exception out of the source. */
  datatype Outcome = Acknowledged(accepted: bool) | Retried | DeadLettered | Aborted

  /** After its turn an entry is no longer pending, or waits out the retry delay. */
  ghost predicate Settles(k: Settings, name: string, sh: Shared, id: nat) {
    id in sh.server.pending ==>
      && sh.server.pending[id].owner == name
      && sh.server.pending[id].deliveredAt == sh.now - (k.minIdle - k.delay)
  }

  ghost predicate OthersUntouched(a: Server, b: Server, id: nat) {
    forall other :: other != id ==>
      (other in b.pending <==> other in a.pending) && (other in a.pending ==> b.pending[other] == a.pending[other])
  }

  /** What one delivery leaves in the records: a decision when acknowledged, a parked copy
      when parked. */
  ghost predicate Recorded(o: Outcome, a: Shared, b: Shared) {
    match o
    case Acknowledged(accepted) =>
      && |b.classified| == |a.classified| + 1 && b.classified[..|a.classified|] == a.classified
      && b.classified[|a.classified|].decision.accepted == accepted && |b.server.dead| == |a.server.dead|
    case DeadLettered => b.classified == a.classified && |b.server.dead| == |a.server.dead| + 1
    case _ => b.classified == a.classified && |b.server.dead| == |a.server.dead|
  }

  lemma SettlingTouchesOne(k: Settings, name: string, sh: Shared, p: Process)
    requires p.pc.Acking? || (p.pc.Retrying? && k.delay <= k.minIdle)
    ensures var r := Acts(k, name, sh, p, false);
            && r.0.now == sh.now && OthersUntouched(sh.server, r.0.server, p.pc.d.id) && Settles(k, name, r.0, p.pc.d.id)
            && r.0.classified == sh.classified && r.0.server.dead == sh.server.dead
  {
  }

  lemma ParkingTouchesOne(k: Settings, name: string, sh: Shared, p: Process)
    requires p.pc.Parking? && k.parks
    ensures var r := ActMany(k, name, sh, p, 2);
            && r.0.now == sh.now && OthersUntouched(sh.server, r.0.server, p.pc.d.id) && Settles(k, name, r.0, p.pc.d.id)
            && Recorded(DeadLettered, sh, r.0)
  {
    hide ParkedCopy, Handle;
    OneStep(k, name, sh, p);
    var q := Acts(k, name, sh, p, false);
    SettlingTouchesOne(k, name, q.0, q.1);
  }

  class RealtimeIngestConsumer {
    const source: RedisMarketEventSource
    const ingestor: RealtimeIngestor
    const flushEvery: nat
    var sinceFlush: nat

    ghost predicate Valid()
      reads this, source, source.client, ingestor, ingestor.ledger
    {
      && source.k.ingest == ingestor.c && ingestor.Valid() && flushEvery >= 1 && source.k.maxReceives >= 1
      && SharedInv(source.k, source.client.View()) && HeldInv(source.client.View(), source.name, source.held)
    }

    constructor (source: RedisMarketEventSource, ingestor: RealtimeIngestor, flushEvery: nat)
      requires source.k.ingest == ingestor.c && ingestor.Valid() && SharedInv(source.k, source.client.View())
      requires HeldInv(source.client.View(), source.name, source.held)
      requires flushEvery >= 1 && source.k.maxReceives >= 1
      ensures Valid() && this.source == source && this.ingestor == ingestor && this.flushEvery == flushEvery && sinceFlush == 0
    {
      this.source, this.ingestor, this.flushEvery, sinceFlush := source, ingestor, flushEvery, 0;
    }

    ghost function Here(pc: Pc): (Shared, Process)
      reads this, source, source.client, ingestor, ingestor.ledger
    {
      (source.client.View(), Process(pc, source.held, ingestor.State()))
    }

    /** Retries while receives remain, then parks. */
    method AfterFault(d: Delivery, ghost rest: seq<Delivery>) returns (o: Outcome, ghost n: nat)
      modifies source, source.client
      ensures o.Retried? || o.DeadLettered? || o.Aborted?
      ensures Here(Working(if o.Aborted? then [] else rest))
           == ActMany(source.k, source.name, old(source.client.View()), old(Here(AfterFailure(source.k, d, rest)).1), n)
      ensures Finishes(source.k, source.name, o, old(source.client.View()), source.client.View(), d.id)
    {
      hide Acts, ActMany;
      ghost var sh, state := source.client.View(), ingestor.State();
      if d.receiveCount >= source.k.maxReceives {
        o, n := Park(d, MAX_RECEIVES_EXCEEDED, rest);
      } else {
        ghost var p := Process(Retrying(d, rest), source.held, state);
        OneStep(source.k, source.name, sh, p);
        var ok := source.RetryLater(d, rest, state);
        if ok { SettlingTouchesOne(source.k, source.name, sh, p); }
        o, n := if ok then Retried else Aborted, 1;
        RetryKeepsTime(source.k, source.name, sh, p);
      }
    }

    method Park(d: Delivery, reason: ParkReason, ghost rest: seq<Delivery>) returns (o: Outcome, ghost n: nat)
      modifies source, source.client
      ensures o.DeadLettered? || o.Aborted?
      ensures Here(Working(if o.Aborted? then [] else rest))
           == ActMany(source.k, source.name, old(source.client.View()), old(Here(Parking(d, reason, rest)).1), n)
      ensures Finishes(source.k, source.name, o, old(source.client.View()), source.client.View(), d.id)
    {
      hide Acts, ActMany;
      ghost var sh, state := source.client.View(), ingestor.State();
      ghost var p := Process(Parking(d, reason, rest), source.held, state);
      var ok := source.DeadLetter(d, reason, rest, state);
      if ok { ParkingTouchesOne(source.k, source.name, sh, p); } else { ParkFailureKeepsTime(source.k, source.name, sh, p); }
      o, n := if ok then DeadLettered else Aborted, if ok then 2 else 1;
    }

    /** One delivery from decoding to its acknowledgement, retry or parking. */
    method HandleOne(d: Delivery, ghost rest: seq<Delivery>) returns (o: Outcome, ghost n: nat)
      requires Valid()
      modifies source, source.client, ingestor, ingestor.ledger
      ensures source.k.ingest == ingestor.c && ingestor.Valid()
      ensures Here(Working(if o.Aborted? then [] else rest))
           == ActMany(source.k, source.name, old(source.client.View()), old(Here(Working([d] + rest)).1), n)
      ensures Finishes(source.k, source.name, o, old(source.client.View()), source.client.View(), d.id)
    {
      hide IngestRuns.Sound, Acts, ActMany, Handle, Submitted, AfterFailure, DecodeEntry, SharedInv, HeldInv, Settles,
        OthersUntouched, Recorded;
      ghost var k, name, sh, p := source.k, source.name, source.client.View(), Here(Working([d] + rest)).1;
      HandleIsAStep(k, name, sh, p, d, rest);
      var doc := DecodeEntry(source.k, d.fields);
      if doc.None? {
        o, n := Park(d, MALFORMED_EVENT, rest);
      } else {
        HandleSubmits(k, name, sh, p, d, rest, doc.value);
        o, n := Ingest(d, doc.value, rest);
      }
      ActManyAdds(k, name, sh, p, 1, n);
      n := n + 1;
    }

    method Ingest(d: Delivery, doc: Json, ghost rest: seq<Delivery>) returns (o: Outcome, ghost n: nat)
      requires source.k.ingest == ingestor.c && ingestor.Valid()
      modifies source, source.client, ingestor, ingestor.ledger
      ensures source.k.ingest == ingestor.c && ingestor.Valid()
      ensures var s := old(Submitted(source.k, source.name, source.client.View(), Here(Working([])).1, d, rest, doc));
              Here(Working(if o.Aborted? then [] else rest)) == ActMany(source.k, source.name, s.0, s.1, n)
      ensures Finishes(source.k, source.name, o, old(source.client.View()), source.client.View(), d.id)
    {
      hide IngestRuns.Sound, Acts, ActMany, Settles, OthersUntouched, SubmitBatch, AfterFailure;
      ghost var k, name, before := source.k, source.name, ingestor.State();
      ghost var at := |source.client.classified|;
      OneDecision(ingestor.c, before, Parse(ingestor.c, doc));
      assert ParseAll(ingestor.c, [doc]) == [Parse(ingestor.c, doc)];
      var r := ingestor.SubmitBatch([doc]);
      if r.Ok? {
        ghost var q := Process(Acking(d, ByIngest(at), rest), source.held, ingestor.State());
        source.client.classified := source.client.classified + [Classified(name, d.id, before, ingestor.State(), r.value[0])];
        SettlingTouchesOne(k, name, source.client.View(), q);
        OneStep(k, name, source.client.View(), q);
        source.Acknowledge(d, ByIngest(at), rest, ingestor.State());
        o, n := Acknowledged(r.value[0].accepted), 1;
      } else if r.error == UnsupportedVersion {
        o, n := Park(d, UNSUPPORTED_EVENT_VERSION, rest);
      } else if r.error == UnknownShard {
        o, n := AfterFault(d, rest);
      } else {
        o, n := Park(d, MALFORMED_EVENT, rest);
      }
    }

    /** The first i deliveries are settled and tallied, n steps into the run from (sh, p). */
    ghost predicate Progress(sh: Shared, p: Process, n: nat, queue: seq<Delivery>, i: nat, c: Cycle)
      reads this, source, source.client, ingestor, ingestor.ledger
    {
      && i <= |queue| && Here(Working(queue[i..])) == ActMany(source.k, source.name, sh, p, n)
      && Tallies(c, i) && Booked(c, sh, source.client.View()) && AllSettle(source.k, source.name, source.client.View(), queue[..i])
    }

    method SettleNext(queue: seq<Delivery>, i: nat, c: Cycle, ghost sh: Shared, ghost p: Process, ghost n: nat)
      returns (done: bool, d: Cycle, ghost m: nat)
      requires Valid() && i < |queue| && DistinctIds(queue) && Progress(sh, p, n, queue, i, c)
      modifies source, source.client, ingestor, ingestor.ledger
      ensures source.k.ingest == ingestor.c && ingestor.Valid()
      ensures done ==> Progress(sh, p, m, queue, i + 1, d)
      ensures !done ==> Here(Working([])) == ActMany(source.k, source.name, sh, p, m)
    {
      hide IngestRuns.Sound, Acts, ActMany, SharedInv, HeldInv, Settles, OthersUntouched, AllSettle, Tallies, Booked,
        Recorded;
      ghost var before := source.client.View();
      assert queue[i..] == [queue[i]] + queue[i + 1..];
      var o;
      ghost var steps;
      o, steps := HandleOne(queue[i], queue[i + 1..]);
      ActManyAdds(source.k, source.name, sh, p, n, steps);
      done, d, m := !o.Aborted?, c, n + steps;
      if done {
        OneMoreSettles(source.k, source.name, before, source.client.View(), queue, i);
        OneMoreTallies(c, o, i);
        OneMoreBooked(c, o, sh, before, source.client.View());
        d := Tallied(c, o);
      }
    }

    /** Every delivery of a poll in turn; false is an exception that ended the cycle. */
    method SettleAll(queue: seq<Delivery>) returns (done: bool, c: Cycle, ghost n: nat)
      requires Valid() && DistinctIds(queue) && ProcessInv(source.k, source.name, source.client.View(), Here(Working(queue)).1)
      modifies source, source.client, ingestor, ingestor.ledger
      ensures Valid()
      ensures Here(Working([])) == ActMany(source.k, source.name, old(source.client.View()), old(Here(Working(queue)).1), n)
      ensures done ==> Tallies(c, |queue|) && AllSettle(source.k, source.name, source.client.View(), queue)
      ensures done ==> Booked(c, old(source.client.View()), source.client.View())
    {
      hide IngestRuns.Sound, Acts, ActMany, SharedInv, ProcessInv, HeldInv, AllSettle, Tallies, Booked;
      ghost var sh, p := source.client.View(), Here(Working(queue)).1;
      done, c, n := true, Cycle(0, 0, 0, 0, 0, 0), 0;
      assert queue[0..] == queue && queue[..0] == [] && queue[|queue|..] == [] && queue[..|queue|] == queue;
      NoSteps(source.k, source.name, sh, p, c);
      var i := 0;
      while i < |queue| && done
        invariant 0 <= i <= |queue| && source.k.ingest == ingestor.c && ingestor.Valid()
        invariant SharedInv(source.k, source.client.View()) && HeldInv(source.client.View(), source.name, source.held)
        invariant done ==> Progress(sh, p, n, queue, i, c)
        invariant !done ==> Here(Working([])) == ActMany(source.k, source.name, sh, p, n)
        decreases |queue| - i, done
      {
        done, c, n := SettleNext(queue, i, c, sh, p, n);
        ActManyHolds(source.k, source.name, sh, p, n,
          if done then Here(Working(queue[i + 1..])) else Here(Working([])));
        if done { i := i + 1; }
      }
    }

    /** One cycle: poll, settle every delivery in turn, publish when enough bars came in.
        None is an exception out of the source or the flush. */
    method RunOnce(publish: (nat, seq<Group>) -> Option<Publication>)
      returns (r: Option<Cycle>, queue: seq<Delivery>, ghost n: nat, ghost handled: Ingestor)
      requires Valid()
      modifies this, source, source.client, ingestor, ingestor.ledger
      ensures Valid()
      ensures (source.client.View(), Process(Working([]), source.held, handled))
           == ActMany(source.k, source.name, old(source.client.View()), old(Here(Working([])).1), n)
      ensures ingestor.State() == handled || ingestor.State() == handled.(buffer := map[])
      ensures r.Some? ==> Tallies(r.value, |queue|) && Booked(r.value, old(source.client.View()), source.client.View())
      ensures r.Some? ==> AllSettle(source.k, source.name, source.client.View(), queue)
      ensures r.Some? ==> sinceFlush == if old(sinceFlush) + r.value.accepted >= flushEvery && queue != [] then 0 else old(sinceFlush) + r.value.accepted
    {
      hide IngestRuns.Sound, Acts, ActMany, SharedInv, ProcessInv, HeldInv, InHand, AllSettle, DistinctIds, Tallies,
        ListsGroups, Plans, Begins, InYear, Reports;
      ghost var sh, p := source.client.View(), Here(Working([])).1;
      NoSteps(source.k, source.name, sh, p, Cycle(0, 0, 0, 0, 0, 0));
      queue := source.Poll(p.ingestor);
      handled, n := p.ingestor, 3;
      PollInv(source.k, source.name, sh, p, queue);
      if queue == [] {
        NothingSettles(source.k, source.name, source.client.View());
        return Some(Cycle(0, 0, 0, 0, 0, 0)), [], n, handled;
      }
      var done, c;
      ghost var steps;
      done, c, steps := SettleAll(queue);
      ActManyAdds(source.k, source.name, sh, p, 3, steps);
      handled, n := ingestor.State(), n + steps;
      if !done { return None, queue, n, handled; }
      sinceFlush := sinceFlush + c.accepted;
      if sinceFlush >= flushEvery {
        var flushed, _, _ := ingestor.Flush(publish);
        if flushed.None? { return None, queue, n, handled; }
        sinceFlush := 0;
      }
      r := Some(c);
    }

    /** A graceful stop publishes everything acknowledged but not yet written; when the
        engine raises, it all stays buffered. */
    method Shutdown(publish: (nat, seq<Group>) -> Option<Publication>)
      returns (r: Option<FlushResult>, groups: seq<Group>, calls: seq<YearCall>)
      requires Valid()
      modifies `sinceFlush, ingestor`buffer
      ensures Valid()
      ensures ListsGroups(groups, old(ingestor.buffer))
      ensures r.Some? ==> Plans(calls, groups) && Reports(r.value, groups, calls, publish)
      ensures r.Some? ==> sinceFlush == 0 && ingestor.State() == old(ingestor.State()).(buffer := map[])
      ensures r.None? ==> StoppedAtLast(calls, groups, publish)
      ensures r.None? ==> sinceFlush == old(sinceFlush) && ingestor.State() == old(ingestor.State())
    {
      hide IngestRuns.Sound, SharedInv, ListsGroups, Plans, Reports, StoppedAtLast;
      r, groups, calls := ingestor.Flush(publish);
      if r.Some? { sinceFlush := 0; }
    }
  }

  ghost predicate AllSettle(k: Settings, name: string, sh: Shared, queue: seq<Delivery>) {
    forall i :: 0 <= i < |queue| ==> Settles(k, name, sh, queue[i].id)
  }

  lemma NothingSettles(k: Settings, name: string, sh: Shared)
    ensures AllSettle(k, name, sh, [])
  {
  }

  lemma NoSteps(k: Settings, name: string, sh: Shared, p: Process, c: Cycle)
    ensures ActMany(k, name, sh, p, 0) == (sh, p) && AllSettle(k, name, sh, [])
    ensures Tallies(Cycle(0, 0, 0, 0, 0, 0), 0) && Booked(Cycle(0, 0, 0, 0, 0, 0), sh, sh)
  {
  }

  lemma OneMoreTallies(c: Cycle, o: Outcome, i: nat)
    requires Tallies(c, i) && !o.Aborted?
    ensures Tallies(Tallied(c, o), i + 1)
  {
  }

  lemma OneMoreSettles(k: Settings, name: string, a: Shared, b: Shared, queue: seq<Delivery>, i: nat)
    requires i < |queue| && DistinctIds(queue) && AllSettle(k, name, a, queue[..i]) && a.now == b.now
    requires OthersUntouched(a.server, b.server, queue[i].id) && Settles(k, name, b, queue[i].id)
    ensures AllSettle(k, name, b, queue[..i + 1])
  {
    hide Settles, OthersUntouched;
    assert forall j :: 0 <= j <= i ==> queue[..i + 1][j] == queue[j];
    forall j | 0 <= j <= i ensures Settles(k, name, b, queue[j].id) {
      if j < i {
        assert queue[..i][j] == queue[j];
        SettledStays(k, name, a, b, queue[i].id, queue[j].id);
      }
    }
  }

  /** Every delivery received was acknowledged, retried or parked; every acknowledged one
      was accepted or skipped. */
  predicate Tallies(c: Cycle, received: nat) {
    && c.received == received == c.acknowledged + c.retried + c.deadLettered
    && c.acknowledged == c.accepted + c.skipped
  }

  function AcceptedIn(records: seq<Classified>): nat {
    if records == [] then 0
    else AcceptedIn(records[..|records| - 1]) + (if records[|records| - 1].decision.accepted then 1 else 0)
  }

  /** The counts are those of the records made since: decisions, accepted ones, copies. */
  ghost predicate Booked(c: Cycle, a: Shared, b: Shared) {
    && a.classified <= b.classified && |b.classified| == |a.classified| + c.acknowledged
    && AcceptedIn(b.classified[|a.classified|..]) == c.accepted
    && |b.server.dead| == |a.server.dead| + c.deadLettered
  }

  lemma OneMoreBooked(c: Cycle, o: Outcome, a: Shared, b: Shared, d: Shared)
    requires Booked(c, a, b) && Recorded(o, b, d) && !o.Aborted?
    ensures Booked(Tallied(c, o), a, d)
  {
    if o.Acknowledged? {
      var n := |a.classified|;
      assert d.classified[n..][..|d.classified[n..]| - 1] == b.classified[n..];
    }
  }

  /** One delivery is settled and recorded, and no other entry is touched. */
  ghost predicate Finishes(k: Settings, name: string, o: Outcome, a: Shared, b: Shared, id: nat) {
    && (!o.Aborted? ==> Settles(k, name, b, id) && OthersUntouched(a.server, b.server, id))
    && b.now == a.now && Recorded(o, a, b)
  }

  function Tallied(c: Cycle, o: Outcome): Cycle {
    match o
    case Acknowledged(accepted) =>
      c.(received := c.received + 1, acknowledged := c.acknowledged + 1,
         accepted := c.accepted + (if accepted then 1 else 0), skipped := c.skipped + (if accepted then 0 else 1))
    case Retried => c.(received := c.received + 1, retried := c.retried + 1)
    case DeadLettered => c.(received := c.received + 1, deadLettered := c.deadLettered + 1)
    case Aborted => c
  }

  lemma PollInv(k: Settings, name: string, sh: Shared, p: Process, queue: seq<Delivery>)
    requires SharedInv(k, sh) && HeldInv(sh, name, p.held) && p.pc == Working([]) && ActMany(k, name, sh, p, 3).1.pc == Working(queue)
    ensures DistinctIds(queue) && SharedInv(k, ActMany(k, name, sh, p, 3).0)
    ensures HeldInv(ActMany(k, name, sh, p, 3).0, name, ActMany(k, name, sh, p, 3).1.held)
    ensures ProcessInv(k, name, ActMany(k, name, sh, p, 3).0, ActMany(k, name, sh, p, 3).1)
  {
    hide SharedInv, ActMany, InHand;
    ActManyKeeps(k, name, sh, p, 3);
  }

  lemma SettledStays(k: Settings, name: string, a: Shared, b: Shared, touched: nat, id: nat)
    requires Settles(k, name, a, id) && OthersUntouched(a.server, b.server, touched) && id != touched && a.now == b.now
    ensures Settles(k, name, b, id)
  {
  }

  /** The handling step for an entry that decodes to doc. */
  function Submitted(k: Settings, name: string, sh: Shared, p: Process, d: Delivery, rest: seq<Delivery>,
                     doc: Json): (Shared, Process) {
    match SubmitBatch(k.ingest, p.ingestor, [Parse(k.ingest, doc)])
    case Returned(after, decisions) =>
      OneDecision(k.ingest, p.ingestor, Parse(k.ingest, doc));
      (sh.(classified := sh.classified + [Classified(name, d.id, p.ingestor, after, decisions[0])]),
       p.(ingestor := after, pc := Acking(d, ByIngest(|sh.classified|), rest)))
    case Raised(after, why) =>
      (sh, p.(ingestor := after,
              pc := if why == UnsupportedVersion then Parking(d, UNSUPPORTED_EVENT_VERSION, rest)
                    else if why == UnknownShard then AfterFailure(k, d, rest)
                    else Parking(d, MALFORMED_EVENT, rest)))
  }

  lemma HandleIsAStep(k: Settings, name: string, sh: Shared, p: Process, d: Delivery, rest: seq<Delivery>)
    requires p.pc == Working([d] + rest)
    ensures p.pc.queue != [] && ActMany(k, name, sh, p, 1) == Handle(k, name, sh, p, false)
    ensures DecodeEntry(k, d.fields).None? ==> Handle(k, name, sh, p, false) == (sh, p.(pc := Parking(d, MALFORMED_EVENT, rest)))
  {
    hide DecodeEntry, SubmitBatch;
    OneStep(k, name, sh, p);
    assert p.pc.queue[0] == d && p.pc.queue[1..] == rest;
  }

  lemma HandleSubmits(k: Settings, name: string, sh: Shared, p: Process, d: Delivery, rest: seq<Delivery>, doc: Json)
    requires p.pc == Working([d] + rest) && DecodeEntry(k, d.fields) == Some(doc)
    ensures p.pc.queue != []
    ensures Handle(k, name, sh, p, false) == Submitted(k, name, sh, p.(pc := Working([])), d, rest, doc)
  {
    hide DecodeEntry, SubmitBatch;
    assert p.pc.queue[0] == d && p.pc.queue[1..] == rest;
    OneDecision(k.ingest, p.ingestor, Parse(k.ingest, doc));
  }

  lemma OneStep(k: Settings, name: string, sh: Shared, p: Process)
    ensures Once(k, name, sh, p)
  {
    hide Acts;
    assert ActMany(k, name, sh, p, 0) == (sh, p);
  }

  lemma RetryKeepsTime(k: Settings, name: string, sh: Shared, p: Process)
    requires p.pc.Retrying?
    ensures Acts(k, name, sh, p, false).0.now == sh.now && Recorded(Retried, sh, Acts(k, name, sh, p, false).0)
  {
  }

  lemma ParkFailureKeepsTime(k: Settings, name: string, sh: Shared, p: Process)
    requires p.pc.Parking? && !k.parks
    ensures ActMany(k, name, sh, p, 1).0 == sh
  {
    OneStep(k, name, sh, p);
  }
}
