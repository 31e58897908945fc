/** No entry is lost on any interleaving of consumers. */
module RedisSafety {
  import opened Common
  import opened TextOrder
  import opened Ingest
  import opened IngestBatch
  import opened RedisStream

  // ---- what an acknowledgement rests on --------------------------------------------------------

  /** The fields a consumer got for an entry: the entry's, or none once it was trimmed. */
  ghost predicate FieldsOf(s: Server, id: nat, fields: Fields) {
    id < |s.log| && (fields == s.log[id] || (id in s.trimmed && fields == map[]))
  }

  /** The entry decodes to an event the acknowledging consumer's own ingestor decided on. */
  ghost predicate Decided(k: Settings, s: Server, x: Classified) {
    && x.id < |s.log| && DecodeEntry(k, s.log[x.id]).Some?
    && SubmitBatch(k.ingest, x.before, [Parse(k.ingest, DecodeEntry(k, s.log[x.id]).value)]) == Returned(x.after, [x.decision])
  }

  ghost predicate Supports(k: Settings, sh: Shared, id: nat, x: Settled) {
    match x.why
    case ByIngest(i) =>
      && i < |sh.classified| && sh.classified[i].id == id && sh.classified[i].consumer == x.consumer
      && Decided(k, sh.server, sh.classified[i])
    case ByParking(i, fields) =>
      i < |sh.server.dead| && k.parks && WasHanded(sh, x.consumer, id, fields) && CopyOf(k, sh.server.dead[i], id, fields)
  }

  /** The consumer was given these fields for the entry. */
  ghost predicate WasHanded(sh: Shared, consumer: string, id: nat, fields: Fields) {
    exists gone :: Handed(consumer, id, fields, gone) in sh.handed
  }

  /** A parked copy of the fields that names the entry it came from. */
  ghost predicate CopyOf(k: Settings, copy: Fields, id: nat, fields: Fields) {
    && Carries(copy, fields)
    && DEAD_LETTER_FIELDS <= copy.Keys
    && copy["sourceStreamEntryId"] == k.show(id) && copy["sourceStream"] == k.stream && copy["sourceConsumerGroup"] == k.group
  }

  /** Whole, unless the entry had been trimmed when it was handed over. */
  ghost predicate HandedRightly(s: Server, h: Handed) {
    h.id < |s.log| && h.fields == (if h.gone then map[] else s.log[h.id]) && (h.gone ==> h.id in s.trimmed)
  }

  // ---- invariants ------------------------------------------------------------------------------------

  ghost predicate SharedInv(k: Settings, sh: Shared) {
    && sh.server.last <= |sh.server.log|
    && (forall id :: id in sh.server.trimmed ==> id < |sh.server.log|)
    && (forall id :: id in sh.server.pending ==> id < sh.server.last && sh.server.pending[id].deliveredAt <= sh.now)
    && sh.delivered == sh.server.pending.Keys + sh.acked.Keys
    && sh.server.pending.Keys !! sh.acked.Keys
    && (forall id :: id in sh.acked ==> id < sh.server.last && Supports(k, sh, id, sh.acked[id]))
    && (forall id :: 0 <= id < sh.server.last ==> id in sh.delivered || id in sh.server.trimmed)
    && HandedInv(sh)
  }

  ghost predicate HandedInv(sh: Shared) {
    forall h :: h in sh.handed ==> HandedRightly(sh.server, h)
  }

  /** Everything a consumer holds was handed to it. */
  ghost predicate HeldInv(sh: Shared, name: string, held: map<nat, Fields>) {
    forall id :: id in held ==> WasHanded(sh, name, id, held[id])
  }

  /** A delivery in hand: its raw fields are held, and its receive count is no more than
      what the server has counted. */
  ghost predicate InHand(sh: Shared, held: map<nat, Fields>, d: Delivery) {
    && FieldsOf(sh.server, d.id, d.fields) && d.id in held && held[d.id] == d.fields
    && Counted(sh, d.id, d.receiveCount)
  }

  ghost predicate Counted(sh: Shared, id: nat, count: nat) {
    id in sh.delivered && (id in sh.server.pending ==> count <= sh.server.pending[id].count)
  }

  ghost predicate QueueInv(sh: Shared, held: map<nat, Fields>, queue: seq<Delivery>) {
    DistinctIds(queue) && forall i :: 0 <= i < |queue| ==> InHand(sh, held, queue[i])
  }

  ghost predicate DistinctIds(queue: seq<Delivery>) {
    forall i, j :: 0 <= i < j < |queue| ==> queue[i].id != queue[j].id
  }

  ghost predicate ProcessInv(k: Settings, name: string, sh: Shared, p: Process) {
    HeldInv(sh, name, p.held) && PcInv(k, name, sh, p)
  }

  ghost predicate PcInv(k: Settings, name: string, sh: Shared, p: Process) {
    match p.pc
    case Snapshotted(ids, counts) =>
      && NoDuplicates(ids)
      && (forall id :: id in ids ==> id in counts && Counted(sh, id, counts[id]))
    case Polling(queue) => QueueInv(sh, p.held, queue)
    case Working(queue) => QueueInv(sh, p.held, queue)
    case Acking(d, why, rest) => QueueInv(sh, p.held, [d] + rest) && Supports(k, sh, d.id, Settled(name, why))
    case Retrying(d, rest) => QueueInv(sh, p.held, [d] + rest)
    case Parking(d, reason, rest) =>
      QueueInv(sh, p.held, [d] + rest) && (reason == MAX_RECEIVES_EXCEEDED ==> d.receiveCount >= k.maxReceives)
  }

  ghost predicate Inv(k: Settings, s: System) {
    SharedInv(k, s.shared) && forall name :: name in s.processes ==> ProcessInv(k, name, s.shared, s.processes[name])
  }

  // ---- the shared state only grows ------------------------------------------------------------------

  /** Nothing written is taken back; a pending entry keeps or gains deliveries. */
  ghost predicate Grows(a: Shared, b: Shared) {
    && a.server.log <= b.server.log && a.server.trimmed <= b.server.trimmed && a.server.dead <= b.server.dead
    && a.classified <= b.classified && a.delivered <= b.delivered && a.handed <= b.handed
    && forall id :: id in a.delivered && id in b.server.pending ==>
         id in a.server.pending && a.server.pending[id].count <= b.server.pending[id].count
  }

  lemma FieldsStay(a: Server, b: Server, id: nat, fields: Fields)
    requires a.log <= b.log && a.trimmed <= b.trimmed && FieldsOf(a, id, fields)
    ensures FieldsOf(b, id, fields)
  {
  }

  lemma SupportStays(k: Settings, a: Shared, b: Shared, id: nat, x: Settled)
    requires Grows(a, b) && Supports(k, a, id, x)
    ensures Supports(k, b, id, x)
  {
    hide DecodeEntry, Carries;
    match x.why
    case ByIngest(i) =>
    case ByParking(i, fields) =>
  }

  lemma HeldStays(a: Shared, b: Shared, name: string, held: map<nat, Fields>)
    requires Grows(a, b) && HeldInv(a, name, held)
    ensures HeldInv(b, name, held)
  {
  }

  lemma HeldDropped(sh: Shared, name: string, held: map<nat, Fields>, id: nat)
    requires HeldInv(sh, name, held)
    ensures HeldInv(sh, name, held - {id})
  {
    hide WasHanded;
  }

  lemma HandedStay(a: Shared, b: Shared)
    requires Grows(a, b) && HandedInv(a) && b.handed == a.handed
    ensures HandedInv(b)
  {
  }

  lemma QueueStays(a: Shared, b: Shared, held: map<nat, Fields>, queue: seq<Delivery>)
    requires Grows(a, b) && QueueInv(a, held, queue)
    ensures QueueInv(b, held, queue)
  {
    forall i | 0 <= i < |queue| ensures InHand(b, held, queue[i]) {
      assert InHand(a, held, queue[i]);
      FieldsStay(a.server, b.server, queue[i].id, queue[i].fields);
    }
  }

  lemma ProcessStays(k: Settings, name: string, a: Shared, b: Shared, p: Process)
    requires Grows(a, b) && ProcessInv(k, name, a, p)
    ensures ProcessInv(k, name, b, p)
  {
    HeldStays(a, b, name, p.held);
    hide HeldInv;
    match p.pc
    case Snapshotted(ids, counts) =>
    case Polling(queue) => hide Grows, QueueInv; QueueStays(a, b, p.held, queue);
    case Working(queue) => hide Grows, QueueInv; QueueStays(a, b, p.held, queue);
    case Acking(d, why, rest) =>
      hide Grows, QueueInv, Supports;
      QueueStays(a, b, p.held, [d] + rest);
      SupportStays(k, a, b, d.id, Settled(name, why));
    case Retrying(d, rest) => hide Grows, QueueInv; QueueStays(a, b, p.held, [d] + rest);
    case Parking(d, _, rest) => hide Grows, QueueInv; QueueStays(a, b, p.held, [d] + rest);
  }

  /** The acknowledged entries keep their support when only the rest of the state grows. */
  lemma AckedStay(k: Settings, a: Shared, b: Shared)
    requires SharedInv(k, a) && Grows(a, b) && b.acked == a.acked && a.server.last <= b.server.last
    ensures forall id :: id in b.acked ==> id < b.server.last && Supports(k, b, id, b.acked[id])
  {
    hide Grows, Supports;
    forall id | id in b.acked ensures id < b.server.last && Supports(k, b, id, b.acked[id]) {
      SupportStays(k, a, b, id, a.acked[id]);
    }
  }

  // ---- one consumer step ---------------------------------------------------------------------------------

  lemma TakeClaims(k: Settings, sh: Shared, owner: string, ids: seq<nat>)
    requires SharedInv(k, sh)
    ensures var b := sh.(server := Claim(sh.server, owner, sh.now, k.minIdle, ids));
            SharedInv(k, b) && Grows(sh, b)
  {
    hide Supports, DecodeEntry;
    var b := sh.(server := Claim(sh.server, owner, sh.now, k.minIdle, ids));
    assert b.server.pending.Keys == sh.server.pending.Keys;
    AckedStay(k, sh, b);
  }

  lemma {:induction false} HoldsAll(held: map<nat, Fields>, queue: seq<Delivery>)
    requires DistinctIds(queue)
    ensures forall i :: 0 <= i < |queue| ==> queue[i].id in HoldAll(held, queue) && HoldAll(held, queue)[queue[i].id] == queue[i].fields
    ensures forall id :: id in held && (forall i :: 0 <= i < |queue| ==> queue[i].id != id) ==>
              id in HoldAll(held, queue) && HoldAll(held, queue)[id] == held[id]
  {
    if queue != [] {
      var n := |queue| - 1;
      HoldsAll(held, queue[..n]);
      assert forall i :: 0 <= i < n ==> queue[..n][i] == queue[i];
    }
  }

  lemma {:induction false} HoldsOnly(held: map<nat, Fields>, queue: seq<Delivery>, id: nat)
    requires id in HoldAll(held, queue)
    ensures (id in held && HoldAll(held, queue)[id] == held[id]) ||
            exists i :: 0 <= i < |queue| && queue[i].id == id && HoldAll(held, queue)[id] == queue[i].fields
  {
    if queue != [] {
      var n := |queue| - 1;
      if id != queue[n].id {
        HoldsOnly(held, queue[..n], id);
        assert forall i :: 0 <= i < n ==> queue[..n][i] == queue[i];
      }
    }
  }

  /** Handing deliveries over is recorded as it happened. */
  lemma HandingOver(k: Settings, a: Shared, s: Server, name: string, queue: seq<Delivery>, held: map<nat, Fields>)
    requires SharedInv(k, a) && HeldInv(a, name, held) && s.trimmed == a.server.trimmed
    requires forall i :: 0 <= i < |queue| ==> queue[i].id < |a.server.log| && queue[i].fields == StillThere(a.server, queue[i].id)
    ensures var b := a.(handed := a.handed + HandedOver(s, name, queue));
            SharedInv(k, b) && Grows(a, b) && HeldInv(b, name, HoldAll(held, queue))
  {
    hide Supports, HoldAll;
    var b := a.(handed := a.handed + HandedOver(s, name, queue));
    assert Grows(a, b);
    AckedStay(k, a, b);
    forall h | h in b.handed ensures HandedRightly(b.server, h) {
      if h !in a.handed {
        var i :| 0 <= i < |queue| && h == Handed(name, queue[i].id, queue[i].fields, queue[i].id in s.trimmed);
      }
    }
    forall id | id in HoldAll(held, queue) ensures WasHanded(b, name, id, HoldAll(held, queue)[id]) {
      HoldsOnly(held, queue, id);
      if i :| 0 <= i < |queue| && queue[i].id == id && HoldAll(held, queue)[id] == queue[i].fields {
        assert Handed(name, id, queue[i].fields, id in s.trimmed) in b.handed;
      } else {
        assert WasHanded(a, name, id, held[id]);
      }
    }
  }

  lemma GrowsTwice(a: Shared, b: Shared, c: Shared)
    requires Grows(a, b) && Grows(b, c) && a.server.pending.Keys + a.acked.Keys == a.delivered && b.delivered == b.server.pending.Keys + b.acked.Keys
    ensures Grows(a, c)
  {
  }

  /** A claimed delivery: still due when claimed, and now counted once more. */
  ghost predicate ClaimedOne(k: Settings, sh: Shared, ids: seq<nat>, d: Delivery) {
    && d.id in ids && Claims(sh.server, sh.now, k.minIdle, d.id) && d.fields == StillThere(sh.server, d.id)
    && d.receiveCount <= sh.server.pending[d.id].count + 1
  }

  lemma {:induction false} ClaimedAre(k: Settings, sh: Shared, ids: seq<nat>, counts: map<nat, nat>)
    requires NoDuplicates(ids)
    requires forall id :: id in ids ==> id in counts && Counted(sh, id, counts[id])
    ensures DistinctIds(ClaimedDeliveries(sh, k, ids, counts))
    ensures forall d :: d in ClaimedDeliveries(sh, k, ids, counts) ==> ClaimedOne(k, sh, ids, d)
    decreases |ids|
  {
    hide StillThere;
    if ids != [] {
      var n := |ids| - 1;
      var front, id := ids[..n], ids[n];
      assert ids == front + [id];
      assert id !in front;
      var rest := ClaimedDeliveries(sh, k, front, counts);
      ClaimedAre(k, sh, front, counts);
      assert forall d :: d in rest ==> ClaimedOne(k, sh, front, d);
      assert forall d :: d in rest ==> ClaimedOne(k, sh, ids, d) && d.id != id;
      assert id in ids && Counted(sh, id, counts[id]);
      hide Counted, NoDuplicates;
      if Claims(sh.server, sh.now, k.minIdle, id) {
        var d := Delivery(id, StillThere(sh.server, id), counts[id] + 1);
        assert ClaimedDeliveries(sh, k, ids, counts) == rest + [d];
        assert ClaimedOne(k, sh, ids, d);
      }
    }
  }

  lemma ClaimedInHand(k: Settings, sh: Shared, owner: string, ids: seq<nat>, held: map<nat, Fields>, d: Delivery)
    requires SharedInv(k, sh) && ClaimedOne(k, sh, ids, d) && d.id in held && held[d.id] == d.fields
    ensures InHand(sh.(server := Claim(sh.server, owner, sh.now, k.minIdle, ids)), held, d)
  {
    hide Supports;
  }

  lemma SnapshotClaims(k: Settings, name: string, sh: Shared, p: Process, ids: seq<nat>, counts: map<nat, nat>)
    requires SharedInv(k, sh) && p.pc == Snapshotted(ids, counts) && ProcessInv(k, name, sh, p)
    ensures var r := Acts(k, name, sh, p, false);
            SharedInv(k, r.0) && Grows(sh, r.0) && ProcessInv(k, name, r.0, r.1)
  {
    hide HoldAll, ClaimedDeliveries, Grows, Supports, Claim, SharedInv, ClaimedOne, HandedOver, HeldInv;
    var queue := ClaimedDeliveries(sh, k, ids, counts);
    var b := sh.(server := Claim(sh.server, name, sh.now, k.minIdle, ids));
    TakeClaims(k, sh, name, ids);
    ClaimedAre(k, sh, ids, counts);
    HoldsAll(p.held, queue);
    var held := HoldAll(p.held, queue);
    forall i | 0 <= i < |queue| ensures InHand(b, held, queue[i]) {
      ClaimedInHand(k, sh, name, ids, held, queue[i]);
    }
    forall i | 0 <= i < |queue|
      ensures queue[i].id < |b.server.log| && queue[i].fields == StillThere(b.server, queue[i].id)
    {
      ClaimedAreThere(k, sh, name, ids, queue[i]);
    }
    HeldStays(sh, b, name, p.held);
    SameTrimmed(sh, name, k, ids);
    HandingOver(k, b, sh.server, name, queue, p.held);
    var c := b.(handed := b.handed + HandedOver(sh.server, name, queue));
    QueueStays(b, c, held, queue);
    BothDelivered(k, sh, b);
    GrowsTwice(sh, b, c);
  }

  lemma ClaimedAreThere(k: Settings, sh: Shared, owner: string, ids: seq<nat>, d: Delivery)
    requires SharedInv(k, sh) && ClaimedOne(k, sh, ids, d)
    ensures var s := Claim(sh.server, owner, sh.now, k.minIdle, ids); d.id < |s.log| && d.fields == StillThere(s, d.id)
  {
    hide Supports;
  }

  lemma SameTrimmed(sh: Shared, owner: string, k: Settings, ids: seq<nat>)
    ensures Claim(sh.server, owner, sh.now, k.minIdle, ids).trimmed == sh.server.trimmed
    ensures HandOut(sh.server, owner, sh.now, ids).trimmed == sh.server.trimmed
  {
  }

  lemma BothDelivered(k: Settings, a: Shared, b: Shared)
    requires SharedInv(k, a) && SharedInv(k, b)
    ensures a.server.pending.Keys + a.acked.Keys == a.delivered && b.delivered == b.server.pending.Keys + b.acked.Keys
  {
    hide Supports;
  }

  lemma HandOutGrows(k: Settings, sh: Shared, b: Shared, owner: string, ids: seq<nat>)
    requires SharedInv(k, sh) && (forall id :: id in ids ==> id >= sh.server.last)
    requires b == sh.(server := HandOut(sh.server, owner, sh.now, ids), delivered := sh.delivered + (set i | i in ids))
    ensures Grows(sh, b) && b.server.pending.Keys == sh.server.pending.Keys + (set i | i in ids)
    ensures b.delivered == b.server.pending.Keys + b.acked.Keys && b.server.pending.Keys !! b.acked.Keys
  {
    hide Supports, ReadPosition;
    assert b.server.pending.Keys == sh.server.pending.Keys + (set i | i in ids);
  }

  lemma HandOutKeeps(k: Settings, sh: Shared, owner: string, count: nat)
    requires SharedInv(k, sh)
    ensures var ids := UnreadIds(sh.server, sh.server.last, count);
            var b := sh.(server := HandOut(sh.server, owner, sh.now, ids),
              delivered := sh.delivered + (set i | i in ids));
            SharedInv(k, b) && Grows(sh, b) && sh.server.last <= b.server.last
  {
    hide Supports, UnreadIds, ReadPosition, Grows;
    var s, ids := sh.server, UnreadIds(sh.server, sh.server.last, count);
    var b := sh.(server := HandOut(s, owner, sh.now, ids), delivered := sh.delivered + (set i | i in ids));
    ReadOn(s, ids);
    HandOutGrows(k, sh, b, owner, ids);
    AckedStay(k, sh, b);
    forall id | s.last <= id < b.server.last ensures id in b.delivered || id in b.server.trimmed {
      ReadSkipsOnlyTrimmed(s, s.last, count, id);
    }
  }

  lemma ReadOn(s: Server, ids: seq<nat>)
    requires s.last <= |s.log|
    requires forall i :: 0 <= i < |ids| ==> s.last <= ids[i] < |s.log|
    requires forall i, j :: 0 <= i < j < |ids| ==> ids[i] < ids[j]
    ensures s.last <= ReadPosition(s, ids) <= |s.log|
    ensures ReadPosition(s, ids) == if ids == [] then s.last else ids[|ids| - 1] + 1
    ensures forall id :: id in ids ==> s.last <= id < ReadPosition(s, ids)
  {
  }

  lemma NewInHand(k: Settings, sh: Shared, owner: string, ids: seq<nat>, held: map<nat, Fields>, d: Delivery)
    requires SharedInv(k, sh) && d.id in ids && d.id < |sh.server.log| && d.fields == sh.server.log[d.id] && d.receiveCount == 1
    requires d.id in held && held[d.id] == d.fields
    ensures InHand(sh.(server := HandOut(sh.server, owner, sh.now, ids), delivered := sh.delivered + (set i | i in ids)), held, d)
  {
    hide Supports;
  }

  lemma InHandIsOld(k: Settings, sh: Shared, held: map<nat, Fields>, d: Delivery)
    requires SharedInv(k, sh) && InHand(sh, held, d)
    ensures d.id < sh.server.last
  {
    hide Supports;
  }

  lemma OldThenNew(queue: seq<Delivery>, more: seq<Delivery>, last: nat)
    requires DistinctIds(queue) && DistinctIds(more)
    requires forall i :: 0 <= i < |queue| ==> queue[i].id < last
    requires forall i :: 0 <= i < |more| ==> more[i].id >= last
    ensures DistinctIds(queue + more)
  {
    var all := queue + more;
    forall i, j | 0 <= i < j < |all| ensures all[i].id != all[j].id {
      if j >= |queue| { assert all[j] == more[j - |queue|]; }
      if i >= |queue| { assert all[i] == more[i - |queue|]; }
    }
  }

  lemma PollReads(k: Settings, name: string, sh: Shared, p: Process, queue: seq<Delivery>)
    requires SharedInv(k, sh) && p.pc == Polling(queue) && ProcessInv(k, name, sh, p) && |queue| < k.batch
    ensures var r := Acts(k, name, sh, p, false);
            SharedInv(k, r.0) && Grows(sh, r.0) && ProcessInv(k, name, r.0, r.1)
  {
    hide UnreadIds, HandOut, SharedInv, Grows, QueueInv, ReadPosition, ReadDeliveries, HoldAll, Handle, Claim, DueIds,
      ClaimedDeliveries, WindIdle, XAck, ParkedCopy, Supports, HandedOver, HeldInv;
    var s := sh.server;
    var ids := UnreadIds(s, s.last, k.batch - |queue|);
    var b := sh.(server := HandOut(s, name, sh.now, ids), delivered := sh.delivered + (set i | i in ids));
    var more := ReadDeliveries(s, ids);
    HandOutKeeps(k, sh, name, k.batch - |queue|);
    ReadInHand(k, sh, b, name, p.held, queue, ids);
    HeldStays(sh, b, name, p.held);
    SameTrimmed(sh, name, k, ids);
    ReadAreThere(s, name, sh.now, ids);
    HandingOver(k, b, s, name, more, p.held);
    var c := b.(handed := b.handed + HandedOver(s, name, more));
    QueueStays(b, c, HoldAll(p.held, more), queue + more);
    BothDelivered(k, sh, b);
    GrowsTwice(sh, b, c);
  }

  lemma ReadAreThere(s: Server, owner: string, now: int, ids: seq<nat>)
    requires forall i :: 0 <= i < |ids| ==> ids[i] < |s.log| && ids[i] !in s.trimmed
    ensures var queue, t := ReadDeliveries(s, ids), HandOut(s, owner, now, ids);
            forall i :: 0 <= i < |queue| ==> queue[i].id < |t.log| && queue[i].fields == StillThere(t, queue[i].id)
  {
  }

  lemma ReadInHand(k: Settings, sh: Shared, b: Shared, owner: string, held: map<nat, Fields>, queue: seq<Delivery>,
                   ids: seq<nat>)
    requires SharedInv(k, sh) && Grows(sh, b) && QueueInv(sh, held, queue)
    requires b == sh.(server := HandOut(sh.server, owner, sh.now, ids), delivered := sh.delivered + (set i | i in ids))
    requires forall i :: 0 <= i < |ids| ==> sh.server.last <= ids[i] < |sh.server.log|
    requires forall i, j :: 0 <= i < j < |ids| ==> ids[i] < ids[j]
    ensures QueueInv(b, HoldAll(held, ReadDeliveries(sh.server, ids)), queue + ReadDeliveries(sh.server, ids))
  {
    hide SharedInv, Grows, InHand, HandOut;
    var more := ReadDeliveries(sh.server, ids);
    assert DistinctIds(more);
    HoldsAll(held, more);
    hide HoldAll, ReadDeliveries;
    var all := HoldAll(held, more);
    forall i | 0 <= i < |queue| ensures queue[i].id < sh.server.last { InHandIsOld(k, sh, held, queue[i]); }
    OldThenNew(queue, more, sh.server.last);
    hide DistinctIds;
    forall i | 0 <= i < |more| ensures InHand(b, all, more[i]) {
      assert ids[i] in ids;
      NewInHand(k, sh, owner, ids, all, more[i]);
    }
    forall i | 0 <= i < |queue| ensures InHand(b, all, queue[i]) {
      assert forall j :: 0 <= j < |more| ==> more[j].id != queue[i].id;
      OldStaysInHand(sh, b, held, all, queue[i]);
    }
    JoinedInHand(b, all, queue, more);
  }

  lemma JoinedInHand(b: Shared, held: map<nat, Fields>, queue: seq<Delivery>, more: seq<Delivery>)
    requires DistinctIds(queue + more)
    requires forall i :: 0 <= i < |more| ==> InHand(b, held, more[i])
    requires forall i :: 0 <= i < |queue| ==> InHand(b, held, queue[i])
    ensures QueueInv(b, held, queue + more)
  {
    hide InHand, DistinctIds;
    forall i | 0 <= i < |queue + more| ensures InHand(b, held, (queue + more)[i]) {
      if i >= |queue| { assert (queue + more)[i] == more[i - |queue|]; }
    }
  }

  lemma OldStaysInHand(a: Shared, b: Shared, held: map<nat, Fields>, other: map<nat, Fields>, d: Delivery)
    requires Grows(a, b) && InHand(a, held, d)
    requires d.id in held ==> d.id in other && other[d.id] == held[d.id]
    ensures InHand(b, other, d)
  {
    FieldsStay(a.server, b.server, d.id, d.fields);
  }

  /** Taking one delivery off the queue leaves the others in hand. */
  lemma RestInHand(sh: Shared, held: map<nat, Fields>, d: Delivery, rest: seq<Delivery>)
    requires QueueInv(sh, held, [d] + rest)
    ensures InHand(sh, held, d) && QueueInv(sh, held - {d.id}, rest) && QueueInv(sh, held, rest)
  {
    hide InHand;
    var queue := [d] + rest;
    assert queue[0] == d && forall i :: 0 <= i < |rest| ==> rest[i] == queue[i + 1];
    assert DistinctIds(rest);
    forall i | 0 <= i < |rest| ensures InHand(sh, held, rest[i]) && InHand(sh, held - {d.id}, rest[i]) {
      assert queue[0].id != queue[i + 1].id;
      DroppedElsewhere(sh, held, d.id, queue[i + 1]);
    }
  }

  lemma DroppedElsewhere(sh: Shared, held: map<nat, Fields>, id: nat, d: Delivery)
    requires InHand(sh, held, d) && d.id != id
    ensures InHand(sh, held - {id}, d)
  {
  }

  lemma AckKeeps(k: Settings, name: string, sh: Shared, p: Process, d: Delivery, why: Evidence, rest: seq<Delivery>)
    requires SharedInv(k, sh) && p.pc == Acking(d, why, rest) && ProcessInv(k, name, sh, p)
    ensures var r := Acts(k, name, sh, p, false);
            SharedInv(k, r.0) && Grows(sh, r.0) && ProcessInv(k, name, r.0, r.1)
  {
    hide Supports, QueueInv, HandedInv, HeldInv, Handle, Claim, DueIds, UnreadIds, HandOut, ClaimedDeliveries,
      ReadDeliveries, ParkedCopy, HandedOver;
    RestInHand(sh, p.held, d, rest);
    HeldDropped(sh, name, p.held, d.id);
    if d.id in sh.server.pending {
      var b := sh.(server := XAck(sh.server, d.id), acked := sh.acked[d.id := Settled(name, why)]);
      AckIsSound(k, sh, d.id, Settled(name, why));
      hide SharedInv, Grows;
      QueueStays(sh, b, p.held - {d.id}, rest);
      HeldStays(sh, b, name, p.held - {d.id});
    }
  }

  lemma AckIsSound(k: Settings, sh: Shared, id: nat, x: Settled)
    requires SharedInv(k, sh) && id in sh.server.pending && Supports(k, sh, id, x)
    ensures var b := sh.(server := XAck(sh.server, id), acked := sh.acked[id := x]); SharedInv(k, b) && Grows(sh, b)
  {
    hide Supports, HandedInv;
    var b := sh.(server := XAck(sh.server, id), acked := sh.acked[id := x]);
    assert Grows(sh, b);
    HandedStay(sh, b);
    assert b.delivered == b.server.pending.Keys + b.acked.Keys;
    forall j | j in b.acked ensures j < b.server.last && Supports(k, b, j, b.acked[j]) {
      SupportStays(k, sh, b, j, b.acked[j]);
    }
  }

  lemma RetryKeeps(k: Settings, name: string, sh: Shared, p: Process, d: Delivery, rest: seq<Delivery>)
    requires SharedInv(k, sh) && p.pc == Retrying(d, rest) && ProcessInv(k, name, sh, p)
    ensures var r := Acts(k, name, sh, p, false);
            SharedInv(k, r.0) && Grows(sh, r.0) && ProcessInv(k, name, r.0, r.1)
  {
    hide Supports, QueueInv, HeldInv, WindIdle, SharedInv, Grows, Handle, Claim, DueIds, UnreadIds, HandOut, ClaimedDeliveries, ReadDeliveries,
      XAck, ParkedCopy, HandedOver;
    if k.delay <= k.minIdle {
      RestInHand(sh, p.held, d, rest);
      var b := sh.(server := WindIdle(sh.server, name, sh.now, k.minIdle - k.delay, d.id));
      WindingIsSound(k, sh, name, d.id);
      HeldDropped(sh, name, p.held, d.id);
      QueueStays(sh, b, p.held - {d.id}, rest);
      HeldStays(sh, b, name, p.held - {d.id});
    } else {
      NothingInHand(sh, p.held);
      GrowsSelf(sh);
    }
  }

  lemma WindingIsSound(k: Settings, sh: Shared, name: string, id: nat)
    requires SharedInv(k, sh) && k.delay <= k.minIdle
    ensures var b := sh.(server := WindIdle(sh.server, name, sh.now, k.minIdle - k.delay, id)); SharedInv(k, b) && Grows(sh, b)
  {
    hide Supports, HandedInv;
    var b := sh.(server := WindIdle(sh.server, name, sh.now, k.minIdle - k.delay, id));
    assert b.server.pending.Keys == sh.server.pending.Keys;
    assert Grows(sh, b);
    HandedStay(sh, b);
    AckedStay(k, sh, b);
  }

  lemma NothingInHand(sh: Shared, held: map<nat, Fields>)
    ensures QueueInv(sh, held, [])
  {
  }

  lemma ParkKeeps(k: Settings, name: string, sh: Shared, p: Process, d: Delivery, reason: ParkReason,
                  rest: seq<Delivery>)
    requires SharedInv(k, sh) && p.pc == Parking(d, reason, rest) && ProcessInv(k, name, sh, p)
    ensures var r := Acts(k, name, sh, p, false);
            SharedInv(k, r.0) && Grows(sh, r.0) && ProcessInv(k, name, r.0, r.1)
  {
    hide QueueInv, Supports, ParkedCopy, SharedInv, Grows, HeldInv, WasHanded, Handle, Claim, DueIds, UnreadIds, HandOut, ClaimedDeliveries,
      ReadDeliveries, XAck, WindIdle, HandedOver;
    if !k.parks {
      NothingInHand(sh, p.held);
      GrowsSelf(sh);
    } else {
      RestInHand(sh, p.held, d, rest);
      HeldWasHanded(sh, name, p.held, d.id);
      var b := sh.(server := sh.server.(dead := sh.server.dead + [ParkedCopy(k, d, d.fields, reason)]));
      ParkingIsSound(k, sh, name, d, reason);
      QueueStays(sh, b, p.held, [d] + rest);
      HeldStays(sh, b, name, p.held);
    }
  }

  lemma HeldWasHanded(sh: Shared, name: string, held: map<nat, Fields>, id: nat)
    requires HeldInv(sh, name, held) && id in held
    ensures WasHanded(sh, name, id, held[id])
  {
  }

  lemma ParkingIsSound(k: Settings, sh: Shared, name: string, d: Delivery, reason: ParkReason)
    requires SharedInv(k, sh) && k.parks && WasHanded(sh, name, d.id, d.fields)
    ensures var b := sh.(server := sh.server.(dead := sh.server.dead + [ParkedCopy(k, d, d.fields, reason)]));
            SharedInv(k, b) && Grows(sh, b) && Supports(k, b, d.id, Settled(name, ByParking(|sh.server.dead|, d.fields)))
  {
    hide Carries, ParkedCopy, DecodeEntry, HandedInv, Decided;
    var copy := ParkedCopy(k, d, d.fields, reason);
    ParkedCopyCarries(k, d, d.fields, reason);
    var b := sh.(server := sh.server.(dead := sh.server.dead + [copy]));
    assert b.server.dead[|sh.server.dead|] == copy;
    assert Supports(k, b, d.id, Settled(name, ByParking(|sh.server.dead|, d.fields)));
    hide Supports;
    assert Grows(sh, b);
    HandedStay(sh, b);
    AckedStay(k, sh, b);
  }

  lemma ClassifiedIsSound(k: Settings, s: Server, d: Delivery, x: Classified)
    requires FieldsOf(s, d.id, d.fields) && x.id == d.id && DecodeEntry(k, d.fields).Some?
    requires SubmitBatch(k.ingest, x.before, [Parse(k.ingest, DecodeEntry(k, d.fields).value)]) == Returned(x.after, [x.decision])
    ensures Decided(k, s, x)
  {
    hide SubmitBatch, DecodeField;
    assert d.fields != map[] by { EmptyIsUndecodable(k); }
  }

  lemma EmptyIsUndecodable(k: Settings)
    ensures DecodeEntry(k, map[]).None?
  {
    assert C_STREAM_FIELDS[0] == "eventId";
    var fields: Fields := map[];
    assert "eventId" !in fields;
  }

  lemma HandleKeeps(k: Settings, name: string, sh: Shared, p: Process, fault: bool)
    requires SharedInv(k, sh) && p.pc.Working? && p.pc.queue != [] && ProcessInv(k, name, sh, p)
    ensures var r := Handle(k, name, sh, p, fault);
            SharedInv(k, r.0) && Grows(sh, r.0) && ProcessInv(k, name, r.0, r.1)
  {
    hide QueueInv, SubmitBatch, DecodeEntry, Supports, FieldsOf, HeldInv, SharedInv, Grows;
    GrowsSelf(sh);
    var d, rest := p.pc.queue[0], p.pc.queue[1..];
    assert p.pc.queue == [d] + rest;
    RestInHand(sh, p.held, d, rest);
    if DecodeEntry(k, d.fields).Some? && !fault && SubmitBatch(k.ingest, p.ingestor, [Parse(k.ingest, DecodeEntry(k, d.fields).value)]).Returned? {
      var doc := DecodeEntry(k, d.fields).value;
      var done := SubmitBatch(k.ingest, p.ingestor, [Parse(k.ingest, doc)]);
      OneDecision(k.ingest, p.ingestor, Parse(k.ingest, doc));
      assert done.value == [done.value[0]];
      var x := Classified(name, d.id, p.ingestor, done.after, done.value[0]);
      ClassifiedIsSound(k, sh.server, d, x);
      ClassifiedJoins(k, name, sh, x);
      QueueStays(sh, sh.(classified := sh.classified + [x]), p.held, [d] + rest);
      HeldStays(sh, sh.(classified := sh.classified + [x]), name, p.held);
    }
  }

  lemma ClassifiedJoins(k: Settings, name: string, sh: Shared, x: Classified)
    requires SharedInv(k, sh) && Decided(k, sh.server, x) && x.consumer == name
    ensures var b := sh.(classified := sh.classified + [x]);
            SharedInv(k, b) && Grows(sh, b) && Supports(k, b, x.id, Settled(name, ByIngest(|sh.classified|)))
  {
    hide Decided, FieldsOf, HandedInv;
    var b := sh.(classified := sh.classified + [x]);
    HandedStay(sh, b);
    assert b.classified[|sh.classified|] == x;
    assert Grows(sh, b);
    AckedStay(k, sh, b);
  }

  /** A snapshot's ids are distinct and its counts the server's. */
  lemma SnapshotKeeps(k: Settings, name: string, sh: Shared, p: Process)
    requires SharedInv(k, sh) && p.pc == Working([]) && HeldInv(sh, name, p.held)
    ensures var r := Acts(k, name, sh, p, false);
            SharedInv(k, r.0) && Grows(sh, r.0) && ProcessInv(k, name, r.0, r.1)
  {
    hide Supports, DueIds;
  }

  lemma ActKeeps(k: Settings, name: string, sh: Shared, p: Process, fault: bool)
    requires SharedInv(k, sh) && ProcessInv(k, name, sh, p)
    ensures var r := Acts(k, name, sh, p, fault);
            SharedInv(k, r.0) && Grows(sh, r.0) && ProcessInv(k, name, r.0, r.1)
  {
    hide HeldInv, SharedInv, Grows, QueueInv, Supports, Handle, Claim, UnreadIds, DueIds, ClaimedDeliveries,
      ReadDeliveries, HandOut, XAck, WindIdle;
    match p.pc
    case Working(queue) =>
      if queue != [] { HandleKeeps(k, name, sh, p, fault); } else { SnapshotKeeps(k, name, sh, p); }
    case Snapshotted(ids, counts) => SnapshotClaims(k, name, sh, p, ids, counts);
    case Polling(queue) =>
      if |queue| < k.batch { PollReads(k, name, sh, p, queue); } else { GrowsSelf(sh); }
    case Acking(d, why, rest) => AckKeeps(k, name, sh, p, d, why, rest);
    case Retrying(d, rest) => RetryKeeps(k, name, sh, p, d, rest);
    case Parking(d, reason, rest) => ParkKeeps(k, name, sh, p, d, reason, rest);
  }

  lemma GrowsSelf(sh: Shared)
    ensures Grows(sh, sh)
  {
  }

  // ---- whole runs ------------------------------------------------------------------------------------------

  /** An acknowledgement is never taken back or given other grounds. */
  ghost predicate AckedKept(a: Shared, b: Shared) {
    forall id :: id in a.acked ==> id in b.acked && b.acked[id] == a.acked[id]
  }

  lemma ActKeepsAcked(k: Settings, name: string, sh: Shared, p: Process, fault: bool)
    requires SharedInv(k, sh)
    ensures AckedKept(sh, Acts(k, name, sh, p, fault).0)
  {
    hide Supports, DecodeEntry, SubmitBatch, Claim, HandOut, DueIds, UnreadIds, ClaimedDeliveries, ReadDeliveries,
      ParkedCopy;
  }

  lemma SharedStepKeeps(k: Settings, a: Shared, b: Shared)
    requires SharedInv(k, a) && Grows(a, b) && b == a.(now := b.now, server := a.server.(log := b.server.log, trimmed := b.server.trimmed))
    requires a.now <= b.now && forall id :: id in b.server.trimmed ==> id < |b.server.log|
    ensures SharedInv(k, b)
  {
    hide Supports;
    AckedStay(k, a, b);
  }

  lemma OthersStay(k: Settings, s: System, b: Shared)
    requires Inv(k, s) && Grows(s.shared, b)
    ensures forall name :: name in s.processes ==> ProcessInv(k, name, b, s.processes[name])
  {
    hide Grows, ProcessInv, SharedInv;
    forall name | name in s.processes ensures ProcessInv(k, name, b, s.processes[name]) {
      ProcessStays(k, name, s.shared, b, s.processes[name]);
    }
  }

  lemma EnvironmentKeeps(k: Settings, s: System, step: Step)
    requires Inv(k, s) && (step.Produce? || step.Trim? || step.Tick?)
    ensures Inv(k, Next(k, s, step)) && AckedKept(s.shared, Next(k, s, step).shared)
  {
    var b := Next(k, s, step).shared;
    assert Grows(s.shared, b);
    SharedStepKeeps(k, s.shared, b);
    OthersStay(k, s, b);
  }

  lemma ActSystemKeeps(k: Settings, s: System, name: string, fault: bool)
    requires Inv(k, s) && name in s.processes
    ensures Inv(k, Next(k, s, Act(name, fault))) && AckedKept(s.shared, Next(k, s, Act(name, fault)).shared)
  {
    hide Acts, SharedInv, ProcessInv, Grows, AckedKept;
    var r := Acts(k, name, s.shared, s.processes[name], fault);
    ActKeeps(k, name, s.shared, s.processes[name], fault);
    ActKeepsAcked(k, name, s.shared, s.processes[name], fault);
    OthersStay(k, s, r.0);
  }

  lemma NextKeeps(k: Settings, s: System, step: Step)
    requires Inv(k, s)
    ensures Inv(k, Next(k, s, step)) && AckedKept(s.shared, Next(k, s, step).shared)
  {
    hide SharedInv, Acts;
    match step
    case Produce(_) => EnvironmentKeeps(k, s, step);
    case Trim(_) => EnvironmentKeeps(k, s, step);
    case Tick(_) => EnvironmentKeeps(k, s, step);
    case Start(name) => NothingInHand(s.shared, map[]); hide QueueInv;
    case Crash(name) => hide ProcessInv;
    case Publish(name) => hide QueueInv, Supports;
    case Act(name, fault) => hide ProcessInv; if name in s.processes { ActSystemKeeps(k, s, name, fault); }
  }

  lemma {:induction false} EveryRunKeepsInv(k: Settings, steps: seq<Step>)
    ensures Inv(k, Execute(k, steps))
    decreases |steps|
  {
    if steps == [] {
      assert Execute(k, steps) == Initial();
    } else {
      hide Inv, Next;
      EveryRunKeepsInv(k, steps[..|steps| - 1]);
      NextKeeps(k, Execute(k, steps[..|steps| - 1]), steps[|steps| - 1]);
    }
  }

  /** The delivery guarantee. On every interleaving an entry is not yet handed out, or
      trimmed by its producer before it could be, or pending, or acknowledged, never two
      of them; and an acknowledged one was decided on by the acknowledging consumer's own
      ingestor or copied with all its fields to the dead-letter stream. */
  lemma NoEntryIsLost(k: Settings, steps: seq<Step>, id: nat)
    requires id < |Execute(k, steps).shared.server.log|
    ensures var sh := Execute(k, steps).shared;
            && (id >= sh.server.last || id in sh.server.trimmed || id in sh.server.pending || id in sh.acked)
            && (id in sh.server.pending || id in sh.acked ==> id < sh.server.last)
            && !(id in sh.server.pending && id in sh.acked)
            && (id in sh.acked ==> Supports(k, sh, id, sh.acked[id]))
            && (id in sh.delivered <==> id in sh.server.pending || id in sh.acked)
  {
    hide Supports, Execute;
    EveryRunKeepsInv(k, steps);
  }

  /** Without a dead-letter stream nothing is ever dropped: every acknowledged entry was
      decided on by an ingestor. */
  lemma WithoutParkingOnlyIngestAcknowledges(k: Settings, steps: seq<Step>, id: nat)
    requires !k.parks && id in Execute(k, steps).shared.acked
    ensures var sh := Execute(k, steps).shared;
            exists x :: x in sh.classified && x.id == id && x.consumer == sh.acked[id].consumer && Decided(k, sh.server, x)
  {
    EveryRunKeepsInv(k, steps);
    hide Execute, Decided;
    var sh := Execute(k, steps).shared;
    assert Supports(k, sh, id, sh.acked[id]);
    var x := sh.classified[sh.acked[id].why.at];
    assert x in sh.classified;
  }

  /** A parked entry lost no field: the copy carries what its consumer was given, which is
      the whole entry unless the producer had trimmed it by then. */
  lemma ParkedWhole(k: Settings, steps: seq<Step>, id: nat)
    requires id in Execute(k, steps).shared.acked && Execute(k, steps).shared.acked[id].why.ByParking?
    ensures var sh, x := Execute(k, steps).shared, Execute(k, steps).shared.acked[id];
            && x.why.at < |sh.server.dead| && CopyOf(k, sh.server.dead[x.why.at], id, x.why.fields) && id < |sh.server.log|
            && (x.why.fields == sh.server.log[id] || (Handed(x.consumer, id, map[], true) in sh.handed && id in sh.server.trimmed))
  {
    EveryRunKeepsInv(k, steps);
    hide Execute, Carries;
    var sh, x := Execute(k, steps).shared, Execute(k, steps).shared.acked[id];
    assert Supports(k, sh, id, x);
    var gone :| Handed(x.consumer, id, x.why.fields, gone) in sh.handed;
    assert HandedRightly(sh.server, Handed(x.consumer, id, x.why.fields, gone));
  }

  /** Handed out once, accounted for ever after: delivered entries stay delivered and
      acknowledgements stay. */
  lemma {:induction false} AccountingIsPermanent(k: Settings, steps: seq<Step>, more: seq<Step>)
    ensures AckedKept(Execute(k, steps).shared, Execute(k, steps + more).shared)
    ensures Execute(k, steps).shared.delivered <= Execute(k, steps + more).shared.delivered
    decreases |more|
  {
    hide Inv, Next, AckedKept;
    if more == [] {
      assert steps + more == steps;
      AckedKeptSelf(Execute(k, steps).shared);
    } else {
      var n := |more| - 1;
      AccountingIsPermanent(k, steps, more[..n]);
      EveryRunKeepsInv(k, steps + more[..n]);
      var s := Execute(k, steps + more[..n]);
      LastStep(k, steps, more);
      NextKeeps(k, s, more[n]);
      NextKeepsDelivered(k, s, more[n]);
      AckedKeptTwice(Execute(k, steps).shared, s.shared, Execute(k, steps + more).shared);
    }
  }

  lemma LastStep(k: Settings, steps: seq<Step>, more: seq<Step>)
    requires more != []
    ensures Execute(k, steps + more) == Next(k, Execute(k, steps + more[..|more| - 1]), more[|more| - 1])
  {
    hide Next;
    assert (steps + more)[..|steps + more| - 1] == steps + more[..|more| - 1];
  }

  lemma AckedKeptSelf(a: Shared)
    ensures AckedKept(a, a)
  {
  }

  lemma AckedKeptTwice(a: Shared, b: Shared, c: Shared)
    requires AckedKept(a, b) && AckedKept(b, c)
    ensures AckedKept(a, c)
  {
  }

  lemma NextKeepsDelivered(k: Settings, s: System, step: Step)
    requires Inv(k, s)
    ensures s.shared.delivered <= Next(k, s, step).shared.delivered
  {
    match step
    case Act(name, fault) =>
      if name in s.processes {
        ActKeeps(k, name, s.shared, s.processes[name], fault);
        hide Acts, SharedInv, ProcessInv;
      }
    case _ => hide Acts, SharedInv, ProcessInv;
  }

  /** An entry is parked for its receive count only after that many deliveries. */
  lemma RetriesAreNotCutShort(k: Settings, steps: seq<Step>, name: string)
    requires name in Execute(k, steps).processes
    ensures var s := Execute(k, steps);
            s.processes[name].pc.Parking? && s.processes[name].pc.reason == MAX_RECEIVES_EXCEEDED ==>
            var id := s.processes[name].pc.d.id;
            id in s.shared.server.pending ==> s.shared.server.pending[id].count >= k.maxReceives
  {
    EveryRunKeepsInv(k, steps);
    hide Execute, SharedInv, FieldsOf, Supports;
    var s := Execute(k, steps);
    assert ProcessInv(k, name, s.shared, s.processes[name]);
    if s.processes[name].pc.Parking? {
      RestInHand(s.shared, s.processes[name].held, s.processes[name].pc.d, s.processes[name].pc.queue);
    }
  }

  // ---- nothing stays behind a crashed consumer ------------------------------------------------------------

  /** Whatever is pending comes due: minIdle from now nobody needs to have retried it. */
  lemma EveryPendingEntryComesDue(k: Settings, steps: seq<Step>, id: nat, t: int)
    requires id in Execute(k, steps).shared.server.pending && t >= Execute(k, steps).shared.now + k.minIdle
    ensures Due(Execute(k, steps).shared.server.pending[id], t, k.minIdle)
  {
    hide Execute, Supports;
    EveryRunKeepsInv(k, steps);
  }

  lemma {:induction false} FirstClaimed(k: Settings, sh: Shared, ids: seq<nat>, counts: map<nat, nat>)
    requires ids != [] && Claims(sh.server, sh.now, k.minIdle, ids[0])
    ensures ClaimedDeliveries(sh, k, ids, counts) != []
    ensures ClaimedDeliveries(sh, k, ids, counts)[0] ==
            Delivery(ids[0], StillThere(sh.server, ids[0]), (if ids[0] in counts then counts[ids[0]] else 0) + 1)
    decreases |ids|
  {
    hide StillThere;
    var n := |ids| - 1;
    if n == 0 {
      assert ids[..0] == [] && ClaimedDeliveries(sh, k, ids[..0], counts) == [];
    } else {
      FirstClaimed(k, sh, ids[..n], counts);
    }
  }

  lemma SnapshotStep(k: Settings, s: System, name: string)
    requires name in s.processes && s.processes[name].pc == Working([])
    ensures var ids := DueIds(s.shared.server.pending, s.shared.now, k.minIdle, 0, s.shared.server.last, k.batch);
            var counts := map i | i in ids :: s.shared.server.pending[i].count;
            Next(k, s, Act(name, false)) == s.(processes := s.processes[name := s.processes[name].(pc := Snapshotted(ids, counts))])
  {
    hide DueIds, Handle;
  }

  lemma ClaimStep(k: Settings, s: System, name: string, ids: seq<nat>, counts: map<nat, nat>)
    requires name in s.processes && s.processes[name].pc == Snapshotted(ids, counts)
    ensures var t := Next(k, s, Act(name, false));
            && name in t.processes && t.processes[name].pc == Polling(ClaimedDeliveries(s.shared, k, ids, counts))
            && t.shared.server == Claim(s.shared.server, name, s.shared.now, k.minIdle, ids)
  {
    hide ClaimedDeliveries, Claim, HoldAll, Handle;
  }

  /** Any consumer that starts a cycle while the oldest due entry waits takes it over
      first, whoever held it before, and counts the delivery. */
  lemma CrashedWorkIsPickedUp(k: Settings, s: System, name: string, id: nat)
    requires Inv(k, s) && name in s.processes && s.processes[name].pc == Working([]) && k.batch > 0
    requires id in s.shared.server.pending && Due(s.shared.server.pending[id], s.shared.now, k.minIdle)
    requires forall j :: 0 <= j < id && j in s.shared.server.pending ==> !Due(s.shared.server.pending[j], s.shared.now, k.minIdle)
    ensures var t := Next(k, Next(k, s, Act(name, false)), Act(name, false));
            && name in t.processes && t.processes[name].pc.Polling? && t.processes[name].pc.queue != []
            && t.processes[name].pc.queue[0].id == id
            && t.processes[name].pc.queue[0].receiveCount == s.shared.server.pending[id].count + 1
            && id in t.shared.server.pending
            && t.shared.server.pending[id] == Pending(name, s.shared.now, s.shared.server.pending[id].count + 1)
  {
    hide Inv, DueIds, ClaimedDeliveries, StillThere, Next;
    var sh := s.shared;
    var ids := DueIds(sh.server.pending, sh.now, k.minIdle, 0, sh.server.last, k.batch);
    var counts := map i | i in ids :: sh.server.pending[i].count;
    PendingIsHandedOut(k, s, id);
    OldestDueComesFirst(sh.server.pending, sh.now, k.minIdle, 0, sh.server.last, k.batch, id);
    assert ids[0] in ids && counts[id] == sh.server.pending[id].count;
    FirstClaimed(k, sh, ids, counts);
    SnapshotStep(k, s, name);
    ClaimStep(k, Next(k, s, Act(name, false)), name, ids, counts);
  }

  lemma PendingIsHandedOut(k: Settings, s: System, id: nat)
    requires Inv(k, s) && id in s.shared.server.pending
    ensures id < s.shared.server.last
  {
    hide Supports;
  }
}
