/** The consumer-group side of market_pipeline_lib/redis_ingest.py: what the Redis calls
    do to the group, and every interleaving of consumers that poll, ingest, retry, park,
    acknowledge and crash. An entry is its index in the stream. */
module RedisStream {
  import opened Common
  import opened TextOrder
  import opened Ingest
  import opened IngestBatch

  type Fields = map<string, string>

  datatype Settings = Settings(
    ingest: Config, shards: map<string, Option<Position>>,
    parseInt: string -> Option<int>, parseValues: string -> Option<map<string, Json>>, show: nat -> string,
    stream: string, group: string, parks: bool,
    minIdle: nat, delay: nat, maxReceives: nat, batch: nat)

  // ---- entries -----------------------------------------------------------------------------

  const C_STREAM_FIELDS := MARKET_EVENT_FIELDS

  const INTEGER_FIELDS := {"schemaVersion", "sequence", "revision"}

  const DEAD_LETTER_FIELDS := {"deadLetterReason", "sourceStream", "sourceStreamEntryId", "sourceConsumerGroup", "deliveryCount"}

  predicate HasStreamFields(fields: Fields) {
    forall name :: name in C_STREAM_FIELDS ==> name in fields
  }

  function DecodeField(k: Settings, name: string, text: string): Option<Json> {
    if name in INTEGER_FIELDS then (
      match k.parseInt(text) case None => None case Some(i) => Some(Whole(i)))
    else if name == "values" then (
      match k.parseValues(text) case None => None case Some(values) => Some(Object(values)))
    else if name == "correctionOfEventId" && text == "" then Some(Null)
    else Some(Text(text))
  }

  /** None is an entry the publisher did not write. */
  function DecodeEntry(k: Settings, fields: Fields): (r: Option<Json>)
    ensures r.Some? ==> r.value.Object? && HasEveryField(r.value.fields)
  {
    if !HasStreamFields(fields) then None
    else if exists name :: name in C_STREAM_FIELDS && DecodeField(k, name, fields[name]).None? then None
    else Some(Object(map name | name in C_STREAM_FIELDS :: DecodeField(k, name, fields[name]).value))
  }

  /** An entry decodes exactly when it has every field and every field decodes, and then
      each field of the document is the entry's own, decoded. */
  lemma DecodedFieldByField(k: Settings, fields: Fields)
    ensures DecodeEntry(k, fields).Some? <==>
            HasStreamFields(fields) && forall name :: name in C_STREAM_FIELDS ==> DecodeField(k, name, fields[name]).Some?
    ensures DecodeEntry(k, fields).Some? ==>
            && DecodeEntry(k, fields).value.fields.Keys == (set name | name in C_STREAM_FIELDS)
            && forall name :: name in C_STREAM_FIELDS ==> Some(DecodeEntry(k, fields).value.fields[name]) == DecodeField(k, name, fields[name])
  {
    hide DecodeField;
  }

  datatype ParkReason = MALFORMED_EVENT | UNSUPPORTED_EVENT_VERSION | MAX_RECEIVES_EXCEEDED

  function ReasonText(r: ParkReason): string {
    match r
    case MALFORMED_EVENT => "MALFORMED_EVENT"
    case UNSUPPORTED_EVENT_VERSION => "UNSUPPORTED_EVENT_VERSION"
    case MAX_RECEIVES_EXCEEDED => "MAX_RECEIVES_EXCEEDED"
  }

  datatype Delivery = Delivery(id: nat, fields: Fields, receiveCount: nat)

  /** What goes to the dead-letter stream: the raw fields plus why and whence. */
  function ParkedCopy(k: Settings, d: Delivery, raw: Fields, reason: ParkReason): Fields {
    raw["deadLetterReason" := ReasonText(reason)]["sourceStream" := k.stream]["sourceStreamEntryId" := k.show(d.id)]
       ["sourceConsumerGroup" := k.group]["deliveryCount" := k.show(d.receiveCount)]
  }

  /** Every field of the original is in the copy, unchanged. */
  ghost predicate Carries(copy: Fields, original: Fields) {
    forall name :: name in original && name !in DEAD_LETTER_FIELDS ==> name in copy && copy[name] == original[name]
  }

  lemma ParkedCopyCarries(k: Settings, d: Delivery, raw: Fields, reason: ParkReason)
    ensures Carries(ParkedCopy(k, d, raw, reason), raw)
    ensures ParkedCopy(k, d, raw, reason).Keys == raw.Keys + DEAD_LETTER_FIELDS
    ensures var copy := ParkedCopy(k, d, raw, reason);
            && copy["deadLetterReason"] == ReasonText(reason) && copy["sourceStreamEntryId"] == k.show(d.id)
            && copy["sourceStream"] == k.stream && copy["sourceConsumerGroup"] == k.group
            && copy["deliveryCount"] == k.show(d.receiveCount)
  {
  }

  lemma StreamFieldsAreOurs()
    ensures forall name :: name in C_STREAM_FIELDS ==> name !in DEAD_LETTER_FIELDS
  {
  }

  /** A parked entry replays as the event it was: decoding the copy, with or without the
      five added fields, gives what decoding the original gives. */
  lemma ReplayDecodesAlike(k: Settings, copy: Fields, original: Fields)
    requires Carries(copy, original) && HasStreamFields(original)
    ensures DecodeEntry(k, copy) == DecodeEntry(k, original)
    ensures DecodeEntry(k, copy - DEAD_LETTER_FIELDS) == DecodeEntry(k, original)
  {
    StreamFieldsAreOurs();
    SameStreamFieldsDecodeAlike(k, copy, original);
    SameStreamFieldsDecodeAlike(k, copy - DEAD_LETTER_FIELDS, original);
  }

  lemma SameStreamFieldsDecodeAlike(k: Settings, a: Fields, b: Fields)
    requires HasStreamFields(a) && HasStreamFields(b)
    requires forall name :: name in C_STREAM_FIELDS ==> a[name] == b[name]
    ensures DecodeEntry(k, a) == DecodeEntry(k, b)
  {
    hide DecodeField, HasEveryField;
    if DecodeEntry(k, a).Some? && DecodeEntry(k, b).Some? {
      assert DecodeEntry(k, a).value.fields == DecodeEntry(k, b).value.fields;
    }
  }

  // ---- the server ------------------------------------------------------------------------------

  datatype Pending = Pending(owner: string, deliveredAt: int, count: nat)

  /** log is the stream, trimmed what its producer has removed again, last the group's
      read position, dead the dead-letter stream. */
  datatype Server = Server(
    log: seq<Fields>, trimmed: set<nat>, last: nat, pending: map<nat, Pending>, dead: seq<Fields>)

  predicate Due(p: Pending, now: int, minIdle: nat) {
    now - p.deliveredAt >= minIdle
  }

  /** XPENDING ... IDLE: the first count due ids at or after from. */
  function DueIds(pending: map<nat, Pending>, now: int, minIdle: nat, from: nat, last: nat, count: nat): (ids: seq<nat>)
    ensures |ids| <= count
    ensures forall i :: 0 <= i < |ids| ==> from <= ids[i] < last && ids[i] in pending && Due(pending[ids[i]], now, minIdle)
    ensures forall i, j :: 0 <= i < j < |ids| ==> ids[i] < ids[j]
    decreases if from < last then last - from else 0
  {
    if from >= last || count == 0 then []
    else if from in pending && Due(pending[from], now, minIdle) then [from] + DueIds(pending, now, minIdle, from + 1, last, count - 1)
    else DueIds(pending, now, minIdle, from + 1, last, count)
  }

  /** XREADGROUP >: the first count entries still in the stream at or after from. */
  function UnreadIds(s: Server, from: nat, count: nat): (ids: seq<nat>)
    ensures |ids| <= count
    ensures forall i :: 0 <= i < |ids| ==> from <= ids[i] < |s.log| && ids[i] !in s.trimmed
    ensures forall i, j :: 0 <= i < j < |ids| ==> ids[i] < ids[j]
    decreases if from < |s.log| then |s.log| - from else 0
  {
    if from >= |s.log| || count == 0 then []
    else if from in s.trimmed then UnreadIds(s, from + 1, count)
    else [from] + UnreadIds(s, from + 1, count - 1)
  }

  /** Reading skips only what was trimmed. */
  lemma {:induction false} ReadSkipsOnlyTrimmed(s: Server, from: nat, count: nat, id: nat)
    requires UnreadIds(s, from, count) != [] && from <= id <= UnreadIds(s, from, count)[|UnreadIds(s, from, count)| - 1]
    ensures id in UnreadIds(s, from, count) || id in s.trimmed
    decreases if from < |s.log| then |s.log| - from else 0
  {
    var ids := UnreadIds(s, from, count);
    if from in s.trimmed {
      if id > from { ReadSkipsOnlyTrimmed(s, from + 1, count, id); }
    } else {
      var rest := UnreadIds(s, from + 1, count - 1);
      assert ids == [from] + rest;
      if id > from { ReadSkipsOnlyTrimmed(s, from + 1, count - 1, id); }
    }
  }

  /** No due entry starves: the oldest one heads every claim. */
  lemma {:induction false} OldestDueComesFirst(pending: map<nat, Pending>, now: int, minIdle: nat, from: nat, last: nat,
                                               count: nat, id: nat)
    requires from <= id < last && id in pending && Due(pending[id], now, minIdle) && count > 0
    requires forall j :: from <= j < id && j in pending ==> !Due(pending[j], now, minIdle)
    ensures DueIds(pending, now, minIdle, from, last, count) != []
    ensures DueIds(pending, now, minIdle, from, last, count)[0] == id
    decreases last - from
  {
    if from < id { OldestDueComesFirst(pending, now, minIdle, from + 1, last, count, id); }
  }

  function ReadPosition(s: Server, ids: seq<nat>): nat {
    if ids == [] then s.last else ids[|ids| - 1] + 1
  }

  function HandOut(s: Server, owner: string, now: int, ids: seq<nat>): Server {
    s.(last := ReadPosition(s, ids),
       pending := map id | id in s.pending.Keys + (set i | i in ids) :: if id in ids then Pending(owner, now, 1) else s.pending[id])
  }

  /** XCLAIM: takes over what is still pending and still due, counting a delivery. */
  function Claim(s: Server, owner: string, now: int, minIdle: nat, ids: seq<nat>): Server {
    s.(pending := map id | id in s.pending ::
         if id in ids && Due(s.pending[id], now, minIdle) then Pending(owner, now, s.pending[id].count + 1) else s.pending[id])
  }

  predicate Claims(s: Server, now: int, minIdle: nat, id: nat) {
    id in s.pending && Due(s.pending[id], now, minIdle)
  }

  /** XCLAIM ... IDLE ... JUSTID: winds the idle clock and leaves the count alone; an
      entry somebody acknowledged meanwhile stays acknowledged. */
  function WindIdle(s: Server, owner: string, now: int, idle: nat, id: nat): Server {
    if id !in s.pending then s
    else s.(pending := s.pending[id := Pending(owner, now - idle, s.pending[id].count)])
  }

  function XAck(s: Server, id: nat): Server {
    s.(pending := s.pending - {id})
  }

  function StillThere(s: Server, id: nat): Fields {
    if id < |s.log| && id !in s.trimmed then s.log[id] else map[]
  }

  // ---- retry -------------------------------------------------------------------------------------

  /** A retried entry is due exactly delay after the retry, whoever polls, and the retry
      itself is not counted as a delivery. */
  lemma RetryIsDueExactlyAfterDelay(k: Settings, s: Server, owner: string, at: int, id: nat, t: int)
    requires id in s.pending && k.delay <= k.minIdle
    ensures var u := WindIdle(s, owner, at, k.minIdle - k.delay, id);
            && id in u.pending && u.pending[id].count == s.pending[id].count
            && (Due(u.pending[id], t, k.minIdle) <==> t >= at + k.delay)
            && (forall other :: other != id ==> (other in u.pending <==> other in s.pending))
  {
  }

  // ---- consumers -----------------------------------------------------------------------------------

  /** Why an entry was acknowledged: position of a classification, or of a copy parked of
      the fields that were handed over. */
  datatype Evidence = ByIngest(at: nat) | ByParking(at: nat, fields: Fields)

  /** What a consumer was given for an entry; gone when it had been trimmed by then. */
  datatype Handed = Handed(consumer: string, id: nat, fields: Fields, gone: bool)

  datatype Classified = Classified(consumer: string, id: nat, before: Ingestor, after: Ingestor, decision: Decision)

  datatype Settled = Settled(consumer: string, why: Evidence)

  /** Where a consumer is in its cycle. Working([]) is between cycles. */
  datatype Pc =
    | Snapshotted(ids: seq<nat>, counts: map<nat, nat>)
    | Polling(queue: seq<Delivery>)
    | Working(queue: seq<Delivery>)
    | Acking(d: Delivery, why: Evidence, queue: seq<Delivery>)
    | Retrying(d: Delivery, queue: seq<Delivery>)
    | Parking(d: Delivery, reason: ParkReason, queue: seq<Delivery>)

  datatype Process = Process(pc: Pc, held: map<nat, Fields>, ingestor: Ingestor)

  /** The server and what happened so far; all but now and server is history. */
  datatype Shared = Shared(
    now: int, server: Server, delivered: set<nat>, handed: set<Handed>, acked: map<nat, Settled>, classified: seq<Classified>)

  /** A consumer's start, and how far the decisions had got. */
  datatype Started = Started(consumer: string, at: nat)

  /** The decisions of a running consumer begin at since, those not yet published at unpublished. */
  datatype Life = Life(since: nat, unpublished: nat)

  /** One successful flush: the rows that went out, from these decisions. */
  datatype Flushed = Flushed(consumer: string, from: nat, upTo: nat, rows: map<GroupKey, map<SlotKey, Row>>)

  /** Everything but shared and processes is history. */
  datatype System = System(
    shared: Shared, processes: map<string, Process>, starts: set<Started>, lives: map<string, Life>, flushed: seq<Flushed>)

  datatype Step =
    | Produce(fields: Fields)
    | Trim(id: nat)
    | Tick(elapsed: nat)
    | Start(name: string)
    | Crash(name: string)
    | Publish(name: string)
    | Act(name: string, fault: bool)

  function Initial(): System {
    System(Shared(0, Server([], {}, 0, map[], []), {}, {}, map[], []), map[], {}, map[], [])
  }

  function HoldAll(held: map<nat, Fields>, queue: seq<Delivery>): map<nat, Fields> {
    if queue == [] then held
    else HoldAll(held, queue[..|queue| - 1])[queue[|queue| - 1].id := queue[|queue| - 1].fields]
  }

  function ClaimedDeliveries(sh: Shared, k: Settings, ids: seq<nat>, counts: map<nat, nat>): (queue: seq<Delivery>)
    ensures |queue| <= |ids|
  {
    if ids == [] then []
    else
      var n := |ids| - 1;
      var id := ids[n];
      ClaimedDeliveries(sh, k, ids[..n], counts) +
      (if Claims(sh.server, sh.now, k.minIdle, id)
       then [Delivery(id, StillThere(sh.server, id), (if id in counts then counts[id] else 0) + 1)] else [])
  }

  function ReadDeliveries(s: Server, ids: seq<nat>): (queue: seq<Delivery>)
    requires forall i :: 0 <= i < |ids| ==> ids[i] < |s.log|
    ensures |queue| == |ids|
    ensures forall i :: 0 <= i < |ids| ==> queue[i] == Delivery(ids[i], s.log[ids[i]], 1)
  {
    seq(|ids|, i requires 0 <= i < |ids| => Delivery(ids[i], s.log[ids[i]], 1))
  }

  function HandedOver(s: Server, consumer: string, queue: seq<Delivery>): set<Handed> {
    set i | 0 <= i < |queue| :: Handed(consumer, queue[i].id, queue[i].fields, queue[i].id in s.trimmed)
  }

  /** Another failure: try again while receives remain, then park. */
  function AfterFailure(k: Settings, d: Delivery, rest: seq<Delivery>): Pc {
    if d.receiveCount >= k.maxReceives then Parking(d, MAX_RECEIVES_EXCEEDED, rest) else Retrying(d, rest)
  }

  /** Decode and submit the head of the queue. A fault is any exception the ingestor does
      not account for. */
  function Handle(k: Settings, name: string, sh: Shared, p: Process, fault: bool): (Shared, Process)
    requires p.pc.Working? && p.pc.queue != []
  {
    var d, rest := p.pc.queue[0], p.pc.queue[1..];
    match DecodeEntry(k, d.fields)
    case None => (sh, p.(pc := Parking(d, MALFORMED_EVENT, rest)))
    case Some(doc) =>
      if fault then (sh, p.(pc := AfterFailure(k, d, rest)))
      else match SubmitBatch(k.ingest, p.ingestor, [Parse(k.ingest, doc)])
        case Returned(after, decisions) =>
          OneDecision(k.ingest, p.ingestor, Parse(k.ingest, doc));
          (sh.(classified := sh.classified + [Classified(name, d.id, p.ingestor, after, decisions[0])]),
           p.(ingestor := after, pc := Acking(d, ByIngest(|sh.classified|), rest)))
        case Raised(after, why) =>
          var pc := if why == UnsupportedVersion then Parking(d, UNSUPPORTED_EVENT_VERSION, rest)
                    else if why == UnknownShard then AfterFailure(k, d, rest)
                    else Parking(d, MALFORMED_EVENT, rest);
          (sh, p.(ingestor := after, pc := pc))
  }

  lemma OneDecision(c: Config, s: Ingestor, parsed: Parsed)
    ensures SubmitBatch(c, s, [parsed]).Returned? ==> |SubmitBatch(c, s, [parsed]).value| == 1
  {
    hide Prepare, Commit, PrepareAll, CommitAll;
  }

  /** The next thing a consumer does. */
  function Acts(k: Settings, name: string, sh: Shared, p: Process, fault: bool): (Shared, Process) {
    var s := sh.server;
    match p.pc
    case Working(queue) =>
      if queue != [] then Handle(k, name, sh, p, fault)
      else
        var ids := DueIds(s.pending, sh.now, k.minIdle, 0, s.last, k.batch);
        (sh, p.(pc := Snapshotted(ids, map id | id in ids :: s.pending[id].count)))
    case Snapshotted(ids, counts) =>
      var queue := ClaimedDeliveries(sh, k, ids, counts);
      (sh.(server := Claim(s, name, sh.now, k.minIdle, ids), handed := sh.handed + HandedOver(s, name, queue)), p.(pc := Polling(queue), held := HoldAll(p.held, queue)))
    case Polling(queue) =>
      if |queue| >= k.batch then (sh, p.(pc := Working(queue)))
      else
        var ids := UnreadIds(s, s.last, k.batch - |queue|);
        var more := ReadDeliveries(s, ids);
        (sh.(server := HandOut(s, name, sh.now, ids), delivered := sh.delivered + (set i | i in ids),
             handed := sh.handed + HandedOver(s, name, more)),
         p.(pc := Working(queue + more), held := HoldAll(p.held, more)))
    case Acking(d, why, rest) =>
      (if d.id in s.pending then sh.(server := XAck(s, d.id), acked := sh.acked[d.id := Settled(name, why)]) else sh,
       p.(pc := Working(rest), held := p.held - {d.id}))
    case Retrying(d, rest) =>
      if k.delay > k.minIdle then (sh, p.(pc := Working([])))
      else (sh.(server := WindIdle(s, name, sh.now, k.minIdle - k.delay, d.id)), p.(pc := Working(rest), held := p.held - {d.id}))
    case Parking(d, reason, rest) =>
      if !k.parks then (sh, p.(pc := Working([])))
      else
        var raw := if d.id in p.held then p.held[d.id] else map["__undecodable__" := ""];
        (sh.(server := s.(dead := s.dead + [ParkedCopy(k, d, raw, reason)])), p.(pc := Acking(d, ByParking(|s.dead|, raw), rest)))
  }

  /** One step of the system; a step that is not possible changes nothing. */
  function Next(k: Settings, s: System, step: Step): System {
    match step
    case Produce(fields) => s.(shared := s.shared.(server := s.shared.server.(log := s.shared.server.log + [fields])))
    case Trim(id) =>
      if id >= |s.shared.server.log| then s
      else s.(shared := s.shared.(server := s.shared.server.(trimmed := s.shared.server.trimmed + {id})))
    case Tick(elapsed) => s.(shared := s.shared.(now := s.shared.now + elapsed))
    case Start(name) =>
      if name in s.processes then s
      else
        var at := |s.shared.classified|;
        s.(processes := s.processes[name := Process(Working([]), map[], Empty(k.shards))],
           starts := s.starts + {Started(name, at)}, lives := s.lives[name := Life(at, at)])
    case Crash(name) => s.(processes := s.processes - {name}, lives := s.lives - {name})
    case Publish(name) =>
      if name !in s.processes || name !in s.lives then s
      else
        var at, p := |s.shared.classified|, s.processes[name];
        s.(processes := s.processes[name := p.(ingestor := p.ingestor.(buffer := map[]))],
           lives := s.lives[name := s.lives[name].(unpublished := at)],
           flushed := s.flushed + [Flushed(name, s.lives[name].unpublished, at, p.ingestor.buffer)])
    case Act(name, fault) =>
      if name !in s.processes then s
      else
        var r := Acts(k, name, s.shared, s.processes[name], fault);
        s.(shared := r.0, processes := s.processes[name := r.1])
  }

  function Execute(k: Settings, steps: seq<Step>): System {
    if steps == [] then Initial() else Next(k, Execute(k, steps[..|steps| - 1]), steps[|steps| - 1])
  }
}
